/** The instruction set as data: the closed union of instruction actions, their tags,
    and which of them a level offers in its catalog. */
module InstructionsCatalog {

  import opened Bytes

  /** The tag of an instruction action (InstructionType). */
  datatype InstructionType =
    | AddOp | CopyFromOp | CopyToOp | DecrementOp | IncrementOp
    | JumpIfNegativeOp | JumpIfZeroOp | JumpOp | LoadOp | ReturnOp | SubtractOp

  /** One instruction of a program, carrying only the payload it needs (InstructionAction). */
  datatype Instruction =
    | Add(programMemoryAddress: nat)
    | CopyFrom(programMemoryAddress: nat)
    | CopyTo(programMemoryAddress: nat)
    | Decrement(programMemoryAddress: nat)
    | Increment(programMemoryAddress: nat)
    | JumpIfNegative(programStackAddress: nat)
    | JumpIfZero(programStackAddress: nat)
    | Jump(programStackAddress: nat)
    | Load
    | Return
    | Subtract(programMemoryAddress: nat)

  /** The `type` field of an instruction action. */
  function TypeOf(i: Instruction): InstructionType
  {
    match i
    case Add(_) => AddOp
    case CopyFrom(_) => CopyFromOp
    case CopyTo(_) => CopyToOp
    case Decrement(_) => DecrementOp
    case Increment(_) => IncrementOp
    case JumpIfNegative(_) => JumpIfNegativeOp
    case JumpIfZero(_) => JumpIfZeroOp
    case Jump(_) => JumpOp
    case Load => LoadOp
    case Return => ReturnOp
    case Subtract(_) => SubtractOp
  }

  /** An instruction of the given tag (payload 0): every tag is the tag of some action. */
  function Representative(t: InstructionType): (i: Instruction)
    ensures TypeOf(i) == t
  {
    match t
    case AddOp => Add(0)
    case CopyFromOp => CopyFrom(0)
    case CopyToOp => CopyTo(0)
    case DecrementOp => Decrement(0)
    case IncrementOp => Increment(0)
    case JumpIfNegativeOp => JumpIfNegative(0)
    case JumpIfZeroOp => JumpIfZero(0)
    case JumpOp => Jump(0)
    case LoadOp => Load
    case ReturnOp => Return
    case SubtractOp => Subtract(0)
  }

  /** The eleven tags, in the order of the InstructionAction union. */
  const AllInstructionTypes: seq<InstructionType> :=
    [AddOp, CopyFromOp, CopyToOp, DecrementOp, IncrementOp,
     JumpIfNegativeOp, JumpIfZeroOp, JumpOp, LoadOp, ReturnOp, SubtractOp]

  /** The position of a tag in the InstructionAction union. */
  function UnionIndex(t: InstructionType): (i: nat)
    ensures i < |AllInstructionTypes| && AllInstructionTypes[i] == t
  {
    match t
    case AddOp => 0
    case CopyFromOp => 1
    case CopyToOp => 2
    case DecrementOp => 3
    case IncrementOp => 4
    case JumpIfNegativeOp => 5
    case JumpIfZeroOp => 6
    case JumpOp => 7
    case LoadOp => 8
    case ReturnOp => 9
    case SubtractOp => 10
  }

  /** The union is closed: exactly eleven distinct tags, and every tag is among them. */
  lemma AllInstructionTypesExact()
    ensures |AllInstructionTypes| == 11
    ensures forall i, j :: 0 <= i < j < |AllInstructionTypes| ==> AllInstructionTypes[i] != AllInstructionTypes[j]
    ensures forall t: InstructionType :: t in AllInstructionTypes
  {
    forall t: InstructionType ensures t in AllInstructionTypes {
      assert AllInstructionTypes[UnionIndex(t)] == t;
    }
  }

  /** Which instructions a level enables (a flag per tag; a missing key reads as absent). */
  type InstructionSet = map<InstructionType, bool>

  /** With no instruction set every opcode is enabled; otherwise its flag, false when missing. */
  function IsInstructionEnabled(instructions: Option<InstructionSet>, instruction: InstructionType): (enabled: bool)
    ensures instructions.None? ==> enabled
    ensures instructions.Some? ==>
              (enabled <==> instruction in instructions.value && instructions.value[instruction])
  {
    match instructions
    case None => true
    case Some(flags) => if instruction in flags then flags[instruction] else false
  }

  /** The order in which the catalog shows the instructions. */
  const CatalogOrder: seq<InstructionType> :=
    [CopyFromOp, CopyToOp, DecrementOp, IncrementOp, AddOp, SubtractOp,
     LoadOp, ReturnOp, JumpIfNegativeOp, JumpIfZeroOp, JumpOp]

  /** The entries of `order` that are enabled, keeping their order. */
  function EnabledIn(instructions: Option<InstructionSet>, order: seq<InstructionType>): (listed: seq<InstructionType>)
    ensures |listed| <= |order|
    ensures forall t :: t in listed <==> t in order && IsInstructionEnabled(instructions, t)
    ensures instructions.None? ==> listed == order
  {
    if order == [] then []
    else
      (if IsInstructionEnabled(instructions, order[0]) then [order[0]] else [])
      + EnabledIn(instructions, order[1..])
  }

  /** No entry occurs twice. */
  predicate Distinct(s: seq<InstructionType>)
  {
    forall i, j :: 0 <= i < j < |s| ==> s[i] != s[j]
  }

  /** Where `t` first occurs in `order`. */
  function Position(order: seq<InstructionType>, t: InstructionType): (p: nat)
    requires t in order
    ensures p < |order| && order[p] == t
  {
    if order[0] == t then 0 else Position(order[1..], t) + 1
  }

  /** Every entry of `listed` occurs in `order`, at strictly increasing positions. */
  predicate IncreasingIn(listed: seq<InstructionType>, order: seq<InstructionType>)
  {
    (forall t :: t in listed ==> t in order)
    && forall i, j :: 0 <= i < j < |listed| ==> Position(order, listed[i]) < Position(order, listed[j])
  }

  /** An opcode after the head of a list without repetitions sits one place further in it
      than in the list's tail. */
  lemma PositionInTail(order: seq<InstructionType>, x: InstructionType)
    requires Distinct(order) && |order| > 0 && x in order[1..]
    ensures x in order && x != order[0] && Position(order, x) == Position(order[1..], x) + 1
  {
    assert order[Position(order[1..], x) + 1] == x;
  }

  /** Entries at increasing positions in the tail of a list without repetitions are at
      increasing positions in the whole list, with or without the head in front. */
  lemma ConsKeepsIncreasing(order: seq<InstructionType>, rest: seq<InstructionType>)
    requires Distinct(order) && |order| > 0 && IncreasingIn(rest, order[1..])
    ensures IncreasingIn(rest, order)
    ensures IncreasingIn([order[0]] + rest, order)
  {
    var tail := order[1..];
    forall k | 0 <= k < |rest| ensures rest[k] in order && Position(order, rest[k]) == Position(tail, rest[k]) + 1 {
      assert rest[k] in rest;
      PositionInTail(order, rest[k]);
    }
    var listed := [order[0]] + rest;
    forall i, j | 0 <= i < j < |listed| ensures Position(order, listed[i]) < Position(order, listed[j]) {
      assert listed[j] == rest[j - 1];
      if i == 0 {
        assert Position(order, listed[0]) == 0;
      } else {
        assert listed[i] == rest[i - 1];
      }
    }
  }

  /** Filtering a list without repetitions keeps that list's order: the listed entries occur
      in `order` at strictly increasing positions. */
  lemma {:induction false} EnabledInKeepsOrder(instructions: Option<InstructionSet>, order: seq<InstructionType>)
    requires Distinct(order)
    ensures IncreasingIn(EnabledIn(instructions, order), order)
  {
    if order != [] {
      var tail := order[1..];
      var rest := EnabledIn(instructions, tail);
      assert Distinct(tail) by {
        forall i, j | 0 <= i < j < |tail| ensures tail[i] != tail[j] {
          assert tail[i] == order[i + 1] && tail[j] == order[j + 1];
        }
      }
      EnabledInKeepsOrder(instructions, tail);
      ConsKeepsIncreasing(order, rest);
      if IsInstructionEnabled(instructions, order[0]) {
        assert EnabledIn(instructions, order) == [order[0]] + rest;
      } else {
        assert EnabledIn(instructions, order) == rest;
      }
    }
  }

  /** Since the positions increase, no opcode is listed twice. */
  lemma EnabledInDistinct(instructions: Option<InstructionSet>, order: seq<InstructionType>)
    requires Distinct(order)
    ensures Distinct(EnabledIn(instructions, order))
  {
    EnabledInKeepsOrder(instructions, order);
  }

  /** The catalog's order names each opcode once. */
  lemma CatalogOrderDistinct()
    ensures Distinct(CatalogOrder)
  {
    forall i, j | 0 <= i < j < |CatalogOrder| ensures CatalogOrder[i] != CatalogOrder[j] {
      assert CatalogIndex(CatalogOrder[i]) == i && CatalogIndex(CatalogOrder[j]) == j;
    }
  }

  /** The position of each opcode in the catalog's order. */
  function CatalogIndex(t: InstructionType): nat
  {
    match t
    case CopyFromOp => 0
    case CopyToOp => 1
    case DecrementOp => 2
    case IncrementOp => 3
    case AddOp => 4
    case SubtractOp => 5
    case LoadOp => 6
    case ReturnOp => 7
    case JumpIfNegativeOp => 8
    case JumpIfZeroOp => 9
    case JumpOp => 10
  }

  /** The instructions the catalog lists. */
  function CatalogListing(instructions: Option<InstructionSet>): seq<InstructionType>
  {
    EnabledIn(instructions, CatalogOrder)
  }

  /** The catalog lists an opcode exactly when it is enabled, and lists at most eleven. */
  lemma CatalogListsExactlyEnabled(instructions: Option<InstructionSet>, t: InstructionType)
    ensures t in CatalogListing(instructions) <==> IsInstructionEnabled(instructions, t)
    ensures |CatalogListing(instructions)| <= 11
  {
    AllInstructionTypesExact();
    assert forall u :: u in AllInstructionTypes ==> u in CatalogOrder;
  }

  /** The catalog lists each opcode at most once, in the catalog's fixed order. */
  lemma CatalogListingKeepsOrder(instructions: Option<InstructionSet>)
    ensures Distinct(CatalogListing(instructions))
    ensures IncreasingIn(CatalogListing(instructions), CatalogOrder)
  {
    CatalogOrderDistinct();
    EnabledInKeepsOrder(instructions, CatalogOrder);
    EnabledInDistinct(instructions, CatalogOrder);
    assert CatalogListing(instructions) == EnabledIn(instructions, CatalogOrder);
  }
}
