/** Instruction decoding and execution (advent_common/src/intcode/opcodes.rs).
    Words are Rust `i32`. The effect of `exec` on the VM is given here as a
    function on a `Machine` value (memory, instruction pointer and the two
    I/O streams); the VM class in IntcodeVm performs it in place. The
    prompt and the `output>>>` framing written to stdout are not modelled:
    the output stream records the integers written, and the input stream is
    the sequence of lines still to be read. */
module IntcodeOpcodes {
  import opened Common
  import opened Text
  import opened IntcodeErrors
  import opened IntcodeParameters

  datatype OpCode =
    | Add(b: BinaryParams)
    | Mul(b: BinaryParams)
    | LessThan(b: BinaryParams)
    | Equals(b: BinaryParams)
    | InputInteger(u: UnaryParams)
    | OutputInteger(u: UnaryParams)
    | JumpIfTrue(c: ConditionParams)
    | JumpIfFalse(c: ConditionParams)
    | Exit

  /** `OpCode::len`: the instruction's width in words. */
  function Len(op: OpCode): (n: nat)
    ensures 1 <= n <= 4
  {
    match op
    case Add(_) | Mul(_) | LessThan(_) | Equals(_) => 4
    case JumpIfTrue(_) | JumpIfFalse(_) => 3
    case InputInteger(_) | OutputInteger(_) => 2
    case Exit => 1
  }

  /** The opcode number each instruction is written with. */
  function Code(op: OpCode): int {
    match op
    case Add(_) => 1
    case Mul(_) => 2
    case InputInteger(_) => 3
    case OutputInteger(_) => 4
    case JumpIfTrue(_) => 5
    case JumpIfFalse(_) => 6
    case LessThan(_) => 7
    case Equals(_) => 8
    case Exit => 99
  }

  predicate KnownCode(code: int) {
    1 <= code <= 8 || code == 99
  }

  /** The width an instruction with a known code has. */
  function CodeLen(code: int): nat
    requires KnownCode(code)
  {
    if code == 1 || code == 2 || code == 7 || code == 8 then 4
    else if code == 5 || code == 6 then 3
    else if code == 3 || code == 4 then 2
    else 1
  }

  // ---------------------------------------------------------------------
  // Decoding, stated with decimal arithmetic

  /** The count the place-value loop for `PLACES[k]` (10000, 1000, 100)
      reaches on a non-negative word: the whole quotient for 10000, the
      decimal digit for 1000 and 100. Negative words never enter a loop. */
  function PlaceCount(word: int, k: nat): nat
    requires k < 3
  {
    if word < 0 then 0
    else if k == 0 then word / 10000
    else if k == 1 then (word / 1000) % 10
    else (word / 100) % 10
  }

  /** Mask bit `1 << k` is set exactly when count k is 1. */
  function ModeBit(word: int, k: nat): bv8
    requires k < 3
  {
    if PlaceCount(word, k) == 1 then ((1 as bv8) << k) else 0
  }

  /** The mode mask built from the first `n` places. */
  function MaskUpTo(word: int, n: nat): bv8
    requires n <= 3
  {
    if n == 0 then 0 else MaskUpTo(word, n - 1) | ModeBit(word, n - 1)
  }

  function ModeMask(word: int): bv8 {
    MaskUpTo(word, 3)
  }

  /** What is left of the word once the places are stripped. */
  function Residual(word: int): int {
    if word < 0 then word else word % 100
  }

  /** The binary instruction a code in {1, 2, 7, 8} names. */
  function BinaryOp(code: int, b: BinaryParams): OpCode {
    if code == 1 then Add(b) else if code == 2 then Mul(b) else if code == 7 then LessThan(b) else Equals(b)
  }

  /** The dispatch on the residual code, shared by Decode and Parse. */
  function Dispatch(code: int, mask: bv8, instructions: seq<int>): (r: Result<OpCode, ErrorKind>)
    requires |instructions| >= 1
    ensures !KnownCode(code) ==> r == Err(UnknownOpcodeError(code))
    ensures KnownCode(code) ==> (r.Ok? <==> |instructions| >= CodeLen(code))
    ensures KnownCode(code) && r.Err? ==> r.error == MemoryError(OpCodeLength)
    ensures r.Ok? ==> Code(r.value) == code && Len(r.value) == CodeLen(code)
  {
    if code == 1 || code == 2 || code == 7 || code == 8 then
      var b :- NewBinary(mask, instructions);
      Ok(BinaryOp(code, b))
    else if code == 3 || code == 4 then
      var u :- NewUnary(mask, instructions);
      Ok(if code == 3 then InputInteger(u) else OutputInteger(u))
    else if code == 5 || code == 6 then
      var c :- NewCondition(mask, instructions);
      Ok(if code == 5 then JumpIfTrue(c) else JumpIfFalse(c))
    else if code == 99 then Ok(Exit)
    else Err(UnknownOpcodeError(code))
  }

  /** `OpCode::parse`, stated with decimal arithmetic. */
  function Decode(instructions: seq<int>): (r: Result<OpCode, ErrorKind>)
    ensures |instructions| == 0 ==> r == Err(MemoryError(OpCodeLength))
    ensures r.Ok? ==> Len(r.value) <= |instructions|
  {
    if |instructions| == 0 then Err(MemoryError(OpCodeLength))
    else Dispatch(Residual(instructions[0]), ModeMask(instructions[0]), instructions)
  }

  predicate Binary(op: OpCode) {
    op.Add? || op.Mul? || op.LessThan? || op.Equals?
  }

  /** The words an instruction reads as operands come from the window it
      was decoded from, with the mode the mask gives each. */
  function Operands(op: OpCode): seq<Parameter> {
    match op
    case Add(b) => [b.left, b.right, b.out]
    case Mul(b) => [b.left, b.right, b.out]
    case LessThan(b) => [b.left, b.right, b.out]
    case Equals(b) => [b.left, b.right, b.out]
    case InputInteger(u) => [u.value]
    case OutputInteger(u) => [u.value]
    case JumpIfTrue(c) => [c.test, c.location]
    case JumpIfFalse(c) => [c.test, c.location]
    case Exit => []
  }

  /** The mode bit of operand i (0-based): 4, 2, then 1. */
  function OperandBit(i: nat): bv8 {
    if i == 0 then 4 else if i == 1 then 2 else 1
  }

  /** The operands of a dispatched instruction are the window's words. */
  lemma DispatchOperands(code: int, mask: bv8, instructions: seq<int>)
    requires |instructions| >= 1 && Dispatch(code, mask, instructions).Ok?
    ensures var ops := Operands(Dispatch(code, mask, instructions).value);
      && |ops| == CodeLen(code) - 1
      && forall i :: 0 <= i < |ops| ==>
           Word(ops[i]) == instructions[i + 1] && ops[i].Immediate? == Flag(mask, OperandBit(i))
  {
    var ops := Operands(Dispatch(code, mask, instructions).value);
    if code == 1 || code == 2 || code == 7 || code == 8 {
      BinaryOperands(code, mask, instructions);
    } else if code == 3 || code == 4 {
      var u := NewUnary(mask, instructions).value;
      assert ops == [u.value];
    } else if code == 5 || code == 6 {
      var c := NewCondition(mask, instructions).value;
      assert ops == [c.test, c.location];
    }
  }

  lemma BinaryOperands(code: int, mask: bv8, instructions: seq<int>)
    requires code == 1 || code == 2 || code == 7 || code == 8
    requires |instructions| >= 1 && Dispatch(code, mask, instructions).Ok?
    ensures var ops := Operands(Dispatch(code, mask, instructions).value);
      && |ops| == 3
      && forall i :: 0 <= i < 3 ==>
           Word(ops[i]) == instructions[i + 1] && ops[i].Immediate? == Flag(mask, OperandBit(i))
  {
    var b := NewBinary(mask, instructions).value;
    assert Dispatch(code, mask, instructions).value == BinaryOp(code, b);
    assert Operands(BinaryOp(code, b)) == [b.left, b.right, b.out];
  }

  /** Decoding succeeds exactly for a known residual with enough words; the
      opcode is the residual's, and operand i (1-based) is word i of the
      window, immediate exactly when mask bit 4, 2, 1 (for i = 1, 2, 3) is set.
      A negative word is its own residual, hence always unknown. */
  lemma DecodeSpec(instructions: seq<int>)
    requires |instructions| >= 1
    ensures var w := instructions[0];
      && (Decode(instructions).Ok? <==> KnownCode(Residual(w)) && |instructions| >= CodeLen(Residual(w)))
      && (!KnownCode(Residual(w)) ==> Decode(instructions) == Err(UnknownOpcodeError(Residual(w))))
      && (w < 0 ==> Decode(instructions) == Err(UnknownOpcodeError(w)))
    ensures Decode(instructions).Ok? ==>
      var op := Decode(instructions).value;
      var ops := Operands(op);
      && Code(op) == Residual(instructions[0])
      && |ops| == Len(op) - 1
      && forall i :: 0 <= i < |ops| ==>
           Word(ops[i]) == instructions[i + 1]
           && ops[i].Immediate? == Flag(ModeMask(instructions[0]), OperandBit(i))
  {
    var w := instructions[0];
    if w < 0 {
      assert !KnownCode(Residual(w));
    }
    if Decode(instructions).Ok? {
      DispatchOperands(Residual(w), ModeMask(w), instructions);
    }
  }

  /** For a non-negative word the mask bits follow its decimal digits:
      bit 4 is "hundreds digit is 1", bit 2 "thousands digit is 1", and
      bit 1 "the word divided by 10000 is 1", which for the five-digit words
      Intcode uses is "ten-thousands digit is 1". A negative word has no
      bits set. */
  lemma ModeMaskDigits(word: int)
    ensures word >= 0 ==>
      && (Flag(ModeMask(word), 4) <==> (word / 100) % 10 == 1)
      && (Flag(ModeMask(word), 2) <==> (word / 1000) % 10 == 1)
      && (Flag(ModeMask(word), 1) <==> word / 10000 == 1)
    ensures 0 <= word < 100000 ==> (Flag(ModeMask(word), 1) <==> (word / 10000) % 10 == 1)
    ensures word < 0 ==> ModeMask(word) == 0
  {
    var b0, b1, b2 := ModeBit(word, 0), ModeBit(word, 1), ModeBit(word, 2);
    assert MaskUpTo(word, 1) == b0;
    assert MaskUpTo(word, 2) == b0 | b1;
    assert ModeMask(word) == b0 | b1 | b2;
    assert b0 == 0 || b0 == 1;
    assert b1 == 0 || b1 == 2;
    assert b2 == 0 || b2 == 4;
  }

  // ---------------------------------------------------------------------
  // Decoding with the place-value loops

  /** The word once places 0..n-1 have been stripped. */
  function Rest(word: int, n: nat): int
    requires n <= 3
  {
    if word < 0 || n == 0 then word
    else if n == 1 then word % 10000
    else if n == 2 then word % 1000
    else word % 100
  }

  function Place(k: nat): int
    requires k < 3
  {
    if k == 0 then 10000 else if k == 1 then 1000 else 100
  }

  lemma PlaceLoop0(word: int, value: int, count: nat)
    requires value + count * 10000 == word && 0 <= value < 10000
    ensures value == word % 10000 && count == word / 10000
  {
  }

  lemma PlaceLoop1(word: int, value: int, count: nat)
    requires word >= 0
    requires value + count * 1000 == word % 10000 && 0 <= value < 1000
    ensures value == word % 1000 && count == (word / 1000) % 10
  {
    var q := word / 10000;
    assert word == (q * 10 + count) * 1000 + value;
    assert word / 1000 == q * 10 + count;
  }

  lemma PlaceLoop2(word: int, value: int, count: nat)
    requires word >= 0
    requires value + count * 100 == word % 1000 && 0 <= value < 100
    ensures value == word % 100 && count == (word / 100) % 10
  {
    var q := word / 1000;
    assert word == (q * 10 + count) * 100 + value;
    assert word / 100 == q * 10 + count;
  }

  /** What one place loop does: it subtracts the place while it can. */
  lemma PlaceLoopResult(word: int, k: nat, value: int, count: nat)
    requires k < 3
    requires value + count * Place(k) == Rest(word, k)
    requires value < Place(k)
    requires word >= 0 ==> value >= 0
    requires word < 0 ==> count == 0
    ensures value == Rest(word, k + 1)
    ensures count == PlaceCount(word, k)
  {
    if word >= 0 {
      if k == 0 {
        PlaceLoop0(word, value, count);
      } else if k == 1 {
        PlaceLoop1(word, value, count);
      } else {
        PlaceLoop2(word, value, count);
      }
    }
  }

  /** One place-value loop of `OpCode::parse`: subtract `PLACES[k]` while
      it fits, counting the subtractions. */
  method StripPlace(word: int, k: nat, value: int) returns (rest: int, count: nat)
    requires k < 3 && value == Rest(word, k)
    ensures rest == Rest(word, k + 1) && count == PlaceCount(word, k)
  {
    var place := Place(k);
    rest, count := value, 0;
    while rest >= place
      invariant rest + count * place == Rest(word, k)
      invariant word >= 0 ==> rest >= 0
      invariant word < 0 ==> count == 0 && rest == word
    {
      rest := rest - place;
      count := count + 1;
    }
    PlaceLoopResult(word, k, rest, count);
  }

  /** `OpCode::parse`: the place-value loops build the mode mask in a
      `u8`, then the residual picks the opcode. */
  method Parse(instructions: seq<int>) returns (r: Result<OpCode, ErrorKind>)
    ensures r == Decode(instructions)
  {
    if |instructions| == 0 {
      return Err(MemoryError(OpCodeLength));
    }
    var word := instructions[0];
    var parameters: bv8 := 0;
    var value := word;
    var idx := 0;
    while idx < 3
      invariant 0 <= idx <= 3
      invariant value == Rest(word, idx)
      invariant parameters == MaskUpTo(word, idx)
    {
      var count;
      value, count := StripPlace(word, idx, value);
      if count == 1 {
        parameters := parameters | ((1 as bv8) << idx);
      } else {
        assert ModeBit(word, idx) == 0;
      }
      idx := idx + 1;
    }
    r := Dispatch(value, parameters, instructions);
  }

  // ---------------------------------------------------------------------
  // Execution

  /** The state `exec` works on. */
  datatype Machine = Machine(memory: seq<int>, ip: nat, input: seq<string>, output: seq<int>)

  /** What `exec` leaves behind: the new state and `Ok(halt)` or the fault. */
  datatype Effect = Effect(after: Machine, outcome: Result<bool, Fault>)

  /** All operand words fit an `i32`, as they do when read from memory. */
  predicate WellFormed(op: OpCode) {
    if Binary(op) then IsI32(Word(op.b.left)) && IsI32(Word(op.b.right)) && IsI32(Word(op.b.out))
    else if op.InputInteger? || op.OutputInteger? then IsI32(Word(op.u.value))
    else if op.JumpIfTrue? || op.JumpIfFalse? then IsI32(Word(op.c.test)) && IsI32(Word(op.c.location))
    else true
  }

  /** The value a binary instruction stores. */
  function Combine(op: OpCode, x: int, y: int): int
    requires Binary(op)
  {
    match op
    case Add(_) => x + y
    case Mul(_) => x * y
    case LessThan(_) => if x < y then 1 else 0
    case Equals(_) => if x == y then 1 else 0
  }

  /** What every instruction but Exit guarantees: memory keeps its length
      and its `i32` cells, a failure changes neither memory, pointer nor
      output, and success never halts. */
  predicate Proper(m: Machine, e: Effect) {
    && |e.after.memory| == |m.memory|
    && (AllI32(m.memory) ==> AllI32(e.after.memory))
    && (e.outcome.Err? ==> e.after.memory == m.memory && e.after.ip == m.ip && e.after.output == m.output)
    && (e.outcome.Ok? ==> !e.outcome.value)
  }

  /** Store `v` through the output parameter and advance by `len`. */
  function WriteOut(m: Machine, out: Parameter, v: int, len: nat): (e: Effect)
    requires IsI32(v)
    ensures Proper(m, e) && e.after.input == m.input
  {
    match ReadMut(out, m.memory)
    case Err(err) => Effect(m, Err(Error(err)))
    case Ok(a) => Effect(m.(memory := m.memory[a := v], ip := m.ip + len), Ok(false))
  }

  /** Add, Mul, LessThan, Equals: `*out = left op right`. Rust evaluates the
      right-hand side first, so both operand reads and the overflow check
      come before the output parameter is resolved. */
  function ExecBinary(op: OpCode, m: Machine): (e: Effect)
    requires Binary(op)
    ensures Proper(m, e) && e.after.input == m.input
  {
    match Read(op.b.left, m.memory)
    case Err(err) => Effect(m, Err(Error(err)))
    case Ok(x) =>
      match Read(op.b.right, m.memory)
      case Err(err) => Effect(m, Err(Error(err)))
      case Ok(y) =>
        var v := Combine(op, x, y);
        if !IsI32(v) then Effect(m, Err(Panicked(ArithmeticOverflow)))
        else WriteOut(m, op.b.out, v, 4)
  }

  /** JumpIfTrue / JumpIfFalse: when the test passes, `ip := location as usize`
      without advancing; otherwise advance by 3. */
  function ExecJump(c: ConditionParams, jumpWhenZero: bool, m: Machine): (e: Effect)
    requires IsI32(Word(c.location))
    requires AllI32(m.memory)
    ensures Proper(m, e) && e.after.input == m.input
    ensures e.after.memory == m.memory
  {
    match Read(c.test, m.memory)
    case Err(err) => Effect(m, Err(Error(err)))
    case Ok(t) =>
      if (t == 0) == jumpWhenZero then
        match Read(c.location, m.memory)
        case Err(err) => Effect(m, Err(Error(err)))
        case Ok(target) => Effect(m.(ip := I32AsUsize(target)), Ok(false))
      else Effect(m.(ip := m.ip + 3), Ok(false))
  }

  /** The line `read_line` yields: the next one, or "" at end of input. */
  function NextLine(input: seq<string>): string {
    if |input| > 0 then input[0] else ""
  }

  function Consume(input: seq<string>): seq<string> {
    if |input| > 0 then input[1..] else input
  }

  /** Input: read a line, parse it trimmed as an `i32` (a bad line is
      reported as read), store it and advance by 2. The line is consumed
      whatever happens. */
  function ExecInput(u: UnaryParams, m: Machine): (e: Effect)
    ensures Proper(m, e) && e.after.input == Consume(m.input)
  {
    var line := NextLine(m.input);
    var m1 := m.(input := Consume(m.input));
    match ParseInt(Trim(line), true, I32_MIN, I32_MAX)
    case None => Effect(m1, Err(Error(IOError(IoParseError(line)))))
    case Some(v) => WriteOut(m1, u.value, v, 2)
  }

  /** Output: append the operand's value to the output and advance by 2. */
  function ExecOutput(u: UnaryParams, m: Machine): (e: Effect)
    ensures Proper(m, e) && e.after.input == m.input
  {
    match Read(u.value, m.memory)
    case Err(err) => Effect(m, Err(Error(err)))
    case Ok(v) => Effect(m.(output := m.output + [v], ip := m.ip + 2), Ok(false))
  }

  /** `OpCode::exec`. Returns `Ok(true)` for Exit and `Ok(false)` for every
      other instruction that completes. */
  function Exec(op: OpCode, m: Machine): (e: Effect)
    requires WellFormed(op) && AllI32(m.memory)
    ensures |e.after.memory| == |m.memory|
    ensures AllI32(e.after.memory)
    ensures e.outcome.Err? ==> e.after.memory == m.memory && e.after.ip == m.ip && e.after.output == m.output
    ensures e.outcome.Ok? ==> (e.outcome.value <==> op.Exit?)
    ensures op.Exit? ==> e == Effect(m, Ok(true))
    ensures !op.InputInteger? ==> e.after.input == m.input
  {
    match op
    case Add(_) => ExecBinary(op, m)
    case Mul(_) => ExecBinary(op, m)
    case LessThan(_) => ExecBinary(op, m)
    case Equals(_) => ExecBinary(op, m)
    case InputInteger(u) => ExecInput(u, m)
    case OutputInteger(u) => ExecOutput(u, m)
    case JumpIfTrue(c) => ExecJump(c, false, m)
    case JumpIfFalse(c) => ExecJump(c, true, m)
    case Exit => Effect(m, Ok(true))
  }

  /** A binary instruction that completes stores `left op right` into the
      cell its output parameter names, changes no other cell, and advances
      the instruction pointer by 4. */
  lemma ExecBinaryStores(op: OpCode, m: Machine)
    requires Binary(op) && WellFormed(op) && AllI32(m.memory)
    requires Exec(op, m).outcome.Ok?
    ensures Read(op.b.left, m.memory).Ok? && Read(op.b.right, m.memory).Ok?
    ensures ReadMut(op.b.out, m.memory).Ok?
    ensures var a := ReadMut(op.b.out, m.memory).value;
      var v := Combine(op, Read(op.b.left, m.memory).value, Read(op.b.right, m.memory).value);
      Exec(op, m).after == m.(memory := m.memory[a := v], ip := m.ip + 4)
  {
  }

  /** A jump whose test passes sets the pointer to its target (as `usize`)
      and does not advance; one whose test fails advances by 3. Memory is
      untouched either way. */
  lemma ExecJumpMoves(op: OpCode, m: Machine)
    requires (op.JumpIfTrue? || op.JumpIfFalse?) && WellFormed(op) && AllI32(m.memory)
    requires Exec(op, m).outcome.Ok?
    ensures Read(op.c.test, m.memory).Ok?
    ensures var t := Read(op.c.test, m.memory).value;
      var taken := if op.JumpIfTrue? then t != 0 else t == 0;
      && Exec(op, m).after.memory == m.memory
      && (taken ==> Read(op.c.location, m.memory).Ok?
                    && Exec(op, m).after.ip == I32AsUsize(Read(op.c.location, m.memory).value))
      && (!taken ==> Exec(op, m).after.ip == m.ip + 3)
  {
  }

  /** Input consumes one line whatever happens next; a line that parses as
      an `i32` is stored through the parameter and the pointer advances by 2.
      Output appends the operand's value to the output stream. */
  lemma ExecIo(op: OpCode, m: Machine)
    requires (op.InputInteger? || op.OutputInteger?) && WellFormed(op) && AllI32(m.memory)
    ensures op.InputInteger? ==> Exec(op, m).after.input == Consume(m.input)
    ensures op.InputInteger? && Exec(op, m).outcome.Ok? ==>
      && ParseInt(Trim(NextLine(m.input)), true, I32_MIN, I32_MAX).Some?
      && ReadMut(op.u.value, m.memory).Ok?
      && Exec(op, m).after.memory
         == m.memory[ReadMut(op.u.value, m.memory).value := ParseInt(Trim(NextLine(m.input)), true, I32_MIN, I32_MAX).value]
      && Exec(op, m).after.ip == m.ip + 2
    ensures op.OutputInteger? && Exec(op, m).outcome.Ok? ==>
      && Read(op.u.value, m.memory).Ok?
      && Exec(op, m).after == m.(output := m.output + [Read(op.u.value, m.memory).value], ip := m.ip + 2)
  {
  }

  /** Decoding a window of `i32` words gives a well-formed instruction. */
  lemma DecodeWellFormed(instructions: seq<int>)
    requires AllI32(instructions)
    requires Decode(instructions).Ok?
    ensures WellFormed(Decode(instructions).value)
  {
    DecodeSpec(instructions);
  }
}
