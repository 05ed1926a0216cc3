/** Operand decoding and resolution (advent_common/src/intcode/parameters.rs).
    Values are Rust `i32`; the memory is the VM's `Vec<i32>`, passed as a
    sequence. `read_mut` hands back a writable cell: here it resolves to the
    cell's index, and the caller writes `memory[index := v]`. */
module IntcodeParameters {
  import opened Common
  import opened IntcodeErrors

  datatype Parameter = Immediate(value: int) | Reference(address: int)

  /** The instruction word a parameter was decoded from. */
  function Word(p: Parameter): int {
    match p
    case Immediate(v) => v
    case Reference(a) => a
  }

  /** `Parameter::new`: operand `idx` of the instruction window, immediate or
      by reference as the mode flag says. */
  function New(idx: nat, immediate: bool, instructions: seq<int>): (r: Result<Parameter, ErrorKind>)
    ensures r.Err? <==> idx >= |instructions|
    ensures r.Err? ==> r.error == MemoryError(OpCodeLength)
    ensures r.Ok? ==> r.value.Immediate? == immediate && Word(r.value) == instructions[idx]
  {
    if idx < |instructions| then
      Ok(if immediate then Immediate(instructions[idx]) else Reference(instructions[idx]))
    else
      Err(MemoryError(OpCodeLength))
  }

  /** `Parameter::read`: an immediate is its own value; a reference loads
      the cell it names. `r as usize` sign-extends a negative reference past
      any vector length, so negative references fail like too-large ones. */
  function Read(p: Parameter, memory: seq<int>): (r: Result<int, ErrorKind>)
    ensures p.Immediate? ==> r == Ok(p.value)
    ensures p.Reference? ==> (r.Ok? <==> 0 <= p.address < |memory|)
    ensures p.Reference? && r.Ok? ==> r.value == memory[p.address]
    ensures r.Err? ==> r.error == MemoryError(ReferenceParameter)
  {
    match p
    case Immediate(x) => Ok(x)
    case Reference(a) =>
      if 0 <= a < |memory| then Ok(memory[a]) else Err(MemoryError(ReferenceParameter))
  }

  /** `Parameter::read_mut`: the index of the cell an output parameter
      designates. Immediates are never written. */
  function ReadMut(p: Parameter, memory: seq<int>): (r: Result<nat, ErrorKind>)
    ensures p.Immediate? ==> r == Err(ImmediateModeOutputError)
    ensures p.Reference? ==> (r.Ok? <==> 0 <= p.address < |memory|)
    ensures p.Reference? && r.Ok? ==> r.value == p.address
    ensures p.Reference? && r.Err? ==> r.error == MemoryError(ReferenceParameter)
  {
    match p
    case Immediate(_) => Err(ImmediateModeOutputError)
    case Reference(a) =>
      if 0 <= a < |memory| then Ok(a) else Err(MemoryError(ReferenceParameter))
  }

  /** A cell that `read_mut` hands out is one `read` can see, and writing a
      value through it makes `read` return that value. */
  lemma WriteThenRead(p: Parameter, memory: seq<int>, v: int)
    requires ReadMut(p, memory).Ok?
    ensures Read(p, memory).Ok? && Read(p, memory).value == memory[ReadMut(p, memory).value]
    ensures Read(p, memory[ReadMut(p, memory).value := v]) == Ok(v)
  {
  }

  /** The three operands of Add, Mul, LessThan and Equals. */
  datatype BinaryParams = BinaryParams(left: Parameter, right: Parameter, out: Parameter)

  /** The single operand of Input and Output. */
  datatype UnaryParams = UnaryParams(value: Parameter)

  /** The test and target of the two jumps. */
  datatype ConditionParams = ConditionParams(test: Parameter, location: Parameter)

  /** Mode bit 4 selects operand 1, bit 2 operand 2, bit 1 operand 3. */
  predicate Flag(mask: bv8, bit: bv8) { mask & bit != 0 }

  /** `BinaryParams::new`: operands 1, 2, 3 with mode bits 4, 2, 1. */
  function NewBinary(mask: bv8, instructions: seq<int>): (r: Result<BinaryParams, ErrorKind>)
    ensures r.Ok? <==> |instructions| >= 4
    ensures r.Err? ==> r.error == MemoryError(OpCodeLength)
    ensures r.Ok? ==>
      && r.value.left.Immediate? == Flag(mask, 4) && Word(r.value.left) == instructions[1]
      && r.value.right.Immediate? == Flag(mask, 2) && Word(r.value.right) == instructions[2]
      && r.value.out.Immediate? == Flag(mask, 1) && Word(r.value.out) == instructions[3]
  {
    var left :- New(1, Flag(mask, 4), instructions);
    var right :- New(2, Flag(mask, 2), instructions);
    var out :- New(3, Flag(mask, 1), instructions);
    Ok(BinaryParams(left, right, out))
  }

  /** `UnaryParams::new`: operand 1 with mode bit 4. */
  function NewUnary(mask: bv8, instructions: seq<int>): (r: Result<UnaryParams, ErrorKind>)
    ensures r.Ok? <==> |instructions| >= 2
    ensures r.Err? ==> r.error == MemoryError(OpCodeLength)
    ensures r.Ok? ==> r.value.value.Immediate? == Flag(mask, 4) && Word(r.value.value) == instructions[1]
  {
    var value :- New(1, Flag(mask, 4), instructions);
    Ok(UnaryParams(value))
  }

  /** `ConditionParams::new`: test is operand 1 (bit 4), location operand 2 (bit 2). */
  function NewCondition(mask: bv8, instructions: seq<int>): (r: Result<ConditionParams, ErrorKind>)
    ensures r.Ok? <==> |instructions| >= 3
    ensures r.Err? ==> r.error == MemoryError(OpCodeLength)
    ensures r.Ok? ==>
      && r.value.test.Immediate? == Flag(mask, 4) && Word(r.value.test) == instructions[1]
      && r.value.location.Immediate? == Flag(mask, 2) && Word(r.value.location) == instructions[2]
  {
    var test :- New(1, Flag(mask, 4), instructions);
    var location :- New(2, Flag(mask, 2), instructions);
    Ok(ConditionParams(test, location))
  }
}
