/** The first Intcode interpreter (advent_common/src/intcode.rs), kept beside
    the modular one. Its `VM` is the same tape machine as in vm.rs, but its
    decoder knows only Add (1), Mul (2) and Exit (99), and its operand reads
    index memory directly, so a bad reference panics instead of returning an
    error. Input and Output instructions exist and can be executed, but the
    decoder never produces them, and executing them does not move the
    instruction pointer.

    The error enums are those of IntcodeErrors; the place-value arithmetic
    and the machine state are shared with IntcodeOpcodes. A line of the
    input stream is the text one `read_line` call returns, terminator
    included ("" at end of input). */
module LegacyIntcode {
  import opened Common
  import opened Text
  import opened IntcodeErrors
  import opened IntcodeParameters
  import IntcodeOpcodes

  type Machine = IntcodeOpcodes.Machine
  type Effect = IntcodeOpcodes.Effect

  datatype OpCode =
    | Add(left: Parameter, right: Parameter, out: Parameter)
    | Mul(left: Parameter, right: Parameter, out: Parameter)
    | InputInteger(out: Parameter)
    | OutputInteger(value: Parameter)
    | Exit

  /** `OpCode::len`. */
  function Len(op: OpCode): (n: nat)
    ensures op.Add? || op.Mul? ==> n == 4
    ensures op.InputInteger? || op.OutputInteger? ==> n == 2
    ensures op.Exit? ==> n == 1
  {
    match op
    case Add(_, _, _) | Mul(_, _, _) => 4
    case InputInteger(_) | OutputInteger(_) => 2
    case Exit => 1
  }

  /** `parameters[k] = count == 1` for the place `PLACES[k]`. */
  predicate Mode(word: int, k: nat)
    requires k < 3
  {
    IntcodeOpcodes.PlaceCount(word, k) == 1
  }

  /** The dispatch on the residual code; `parameters[2]` is the left
      operand's mode, `parameters[1]` the right's and `parameters[0]` the
      output's. */
  function Dispatch(code: int, modes: seq<bool>, instructions: seq<int>): (r: Result<OpCode, ErrorKind>)
    requires |modes| == 3
  {
    if code == 1 || code == 2 then
      var left :- New(1, modes[2], instructions);
      var right :- New(2, modes[1], instructions);
      var out :- New(3, modes[0], instructions);
      Ok(if code == 1 then Add(left, right, out) else Mul(left, right, out))
    else if code == 99 then Ok(Exit)
    else Err(UnknownOpcodeError(code))
  }

  function Modes(word: int): (r: seq<bool>)
    ensures |r| == 3 && forall k :: 0 <= k < 3 ==> (r[k] <==> Mode(word, k))
  {
    [Mode(word, 0), Mode(word, 1), Mode(word, 2)]
  }

  /** `OpCode::parse`, stated with decimal arithmetic. */
  function Decode(instructions: seq<int>): (r: Result<OpCode, ErrorKind>)
    ensures |instructions| == 0 ==> r == Err(MemoryError(OpCodeLength))
    ensures r.Ok? ==> r.value.Add? || r.value.Mul? || r.value.Exit?
    ensures r.Ok? ==> Len(r.value) <= |instructions|
  {
    if |instructions| == 0 then Err(MemoryError(OpCodeLength))
    else
      var w := instructions[0];
      Dispatch(IntcodeOpcodes.Residual(w), Modes(w), instructions)
  }

  /** Decoding succeeds exactly for residual 1 or 2 with four words, or 99;
      every other residual, 3 and 4 included, is an unknown opcode. The
      operands are words 1, 2, 3 of the window, immediate exactly when the
      hundreds, thousands and ten-thousands places (in that order) count 1. */
  lemma DecodeSpec(instructions: seq<int>)
    requires |instructions| >= 1
    ensures var code := IntcodeOpcodes.Residual(instructions[0]);
      && (Decode(instructions).Ok? <==> code == 99 || ((code == 1 || code == 2) && |instructions| >= 4))
      && (code != 1 && code != 2 && code != 99 ==> Decode(instructions) == Err(UnknownOpcodeError(code)))
      && ((code == 1 || code == 2) && |instructions| < 4 ==> Decode(instructions) == Err(MemoryError(OpCodeLength)))
    ensures var w := instructions[0];
      Decode(instructions).Ok? && !Decode(instructions).value.Exit? ==>
        var op := Decode(instructions).value;
        && (op.Add? <==> IntcodeOpcodes.Residual(w) == 1)
        && Word(op.left) == instructions[1] && (op.left.Immediate? <==> Mode(w, 2))
        && Word(op.right) == instructions[2] && (op.right.Immediate? <==> Mode(w, 1))
        && Word(op.out) == instructions[3] && (op.out.Immediate? <==> Mode(w, 0))
  {
    var w := instructions[0];
    var code := IntcodeOpcodes.Residual(w);
    if code == 1 || code == 2 {
      if |instructions| >= 4 {
        var ms := Modes(w);
        assert New(1, ms[2], instructions).Ok? && New(2, ms[1], instructions).Ok? && New(3, ms[0], instructions).Ok?;
      } else {
        assert New(3, Modes(w)[0], instructions).Err?;
      }
    }
  }

  /** `OpCode::parse`: the place-value loops fill the three mode flags, then
      the residual picks the opcode. */
  method Parse(instructions: seq<int>) returns (r: Result<OpCode, ErrorKind>)
    ensures r == Decode(instructions)
  {
    if |instructions| == 0 {
      return Err(MemoryError(OpCodeLength));
    }
    var word := instructions[0];
    var parameters := [false, false, false];
    var value := word;
    var idx := 0;
    while idx < 3
      invariant 0 <= idx <= 3 && |parameters| == 3
      invariant value == IntcodeOpcodes.Rest(word, idx)
      invariant forall k :: 0 <= k < idx ==> (parameters[k] <==> Mode(word, k))
    {
      var place := IntcodeOpcodes.Place(idx);
      var count := 0;
      while value >= place
        invariant value + count * place == IntcodeOpcodes.Rest(word, idx)
        invariant word >= 0 ==> value >= 0
        invariant word < 0 ==> count == 0 && value == word
      {
        value := value - place;
        count := count + 1;
      }
      IntcodeOpcodes.PlaceLoopResult(word, idx, value, count);
      parameters := parameters[idx := count == 1];
      idx := idx + 1;
    }
    assert parameters == Modes(word);
    r := Dispatch(value, parameters, instructions);
  }

  // ---------------------------------------------------------------------
  // Execution

  /** `Parameter::read`: an immediate is its value; a reference indexes
      memory, and `r as usize` of a negative `r` lies past every length, so
      any reference outside memory panics. */
  function ReadOperand(p: Parameter, memory: seq<int>): (r: Result<int, Fault>)
    ensures p.Immediate? ==> r == Ok(p.value)
    ensures p.Reference? ==> (r.Ok? <==> 0 <= p.address < |memory|)
    ensures p.Reference? && r.Ok? ==> r.value == memory[p.address]
    ensures r.Err? ==> r.error == Panicked(SliceIndexOutOfRange)
  {
    match p
    case Immediate(x) => Ok(x)
    case Reference(a) =>
      if 0 <= a < |memory| then Ok(memory[a]) else Err(Panicked(SliceIndexOutOfRange))
  }

  /** `Parameter::read_mut`: an immediate is refused with an error; a
      reference outside memory panics in `load_mut`. */
  function ReadOperandMut(p: Parameter, memory: seq<int>): (r: Result<nat, Fault>)
    ensures p.Immediate? ==> r == Err(Error(ImmediateModeOutputError))
    ensures p.Reference? ==> (r.Ok? <==> 0 <= p.address < |memory|)
    ensures p.Reference? && r.Ok? ==> r.value == p.address
    ensures p.Reference? && r.Err? ==> r.error == Panicked(SliceIndexOutOfRange)
  {
    match p
    case Immediate(_) => Err(Error(ImmediateModeOutputError))
    case Reference(a) =>
      if 0 <= a < |memory| then Ok(a) else Err(Panicked(SliceIndexOutOfRange))
  }

  /** Add and Mul: `*out = left op right`, right-hand side first; an `i32`
      overflow panics. */
  function ExecArithmetic(op: OpCode, m: Machine): (e: Effect)
    requires op.Add? || op.Mul?
  {
    match ReadOperand(op.left, m.memory)
    case Err(f) => IntcodeOpcodes.Effect(m, Err(f))
    case Ok(x) =>
      match ReadOperand(op.right, m.memory)
      case Err(f) => IntcodeOpcodes.Effect(m, Err(f))
      case Ok(y) =>
        var v := if op.Add? then x + y else x * y;
        if !IsI32(v) then IntcodeOpcodes.Effect(m, Err(Panicked(ArithmeticOverflow)))
        else
          match ReadOperandMut(op.out, m.memory)
          case Err(f) => IntcodeOpcodes.Effect(m, Err(f))
          case Ok(a) => IntcodeOpcodes.Effect(m.(memory := m.memory[a := v], ip := m.ip + Len(op)), Ok(false))
  }

  /** InputInteger: read a line and parse it as it is, without trimming, so
      a line still ending in its newline is rejected; then store it. The
      pointer is not advanced. */
  function ExecInput(out: Parameter, m: Machine): (e: Effect)
  {
    var line := IntcodeOpcodes.NextLine(m.input);
    var m1 := m.(input := IntcodeOpcodes.Consume(m.input));
    match ParseInt(line, true, I32_MIN, I32_MAX)
    case None => IntcodeOpcodes.Effect(m1, Err(Error(IOError(IoParseError(line)))))
    case Some(v) =>
      match ReadOperandMut(out, m.memory)
      case Err(f) => IntcodeOpcodes.Effect(m1, Err(f))
      case Ok(a) => IntcodeOpcodes.Effect(m1.(memory := m.memory[a := v]), Ok(false))
  }

  /** OutputInteger: write the operand's value. The pointer is not
      advanced. */
  function ExecOutput(value: Parameter, m: Machine): (e: Effect)
  {
    match ReadOperand(value, m.memory)
    case Err(f) => IntcodeOpcodes.Effect(m, Err(f))
    case Ok(v) => IntcodeOpcodes.Effect(m.(output := m.output + [v]), Ok(false))
  }

  /** `OpCode::exec` as a function of the machine state. */
  function Perform(op: OpCode, m: Machine): (e: Effect)
    requires AllI32(m.memory)
    ensures |e.after.memory| == |m.memory|
    ensures AllI32(e.after.memory)
    ensures e.outcome.Err? ==> e.after.memory == m.memory && e.after.ip == m.ip && e.after.output == m.output
    ensures e.outcome.Ok? ==> (e.outcome.value <==> op.Exit?)
    ensures op.Exit? ==> e == IntcodeOpcodes.Effect(m, Ok(true))
    ensures !op.InputInteger? ==> e.after.input == m.input
    ensures !op.Add? && !op.Mul? ==> e.after.ip == m.ip
  {
    match op
    case Add(_, _, _) => ExecArithmetic(op, m)
    case Mul(_, _, _) => ExecArithmetic(op, m)
    case InputInteger(out) => ExecInput(out, m)
    case OutputInteger(value) => ExecOutput(value, m)
    case Exit => IntcodeOpcodes.Effect(m, Ok(true))
  }

  /** Add and Mul that complete store the sum or product into the cell the
      output parameter names, change no other cell, and advance by 4. */
  lemma ExecArithmeticStores(op: OpCode, m: Machine)
    requires (op.Add? || op.Mul?) && AllI32(m.memory)
    requires Perform(op, m).outcome.Ok?
    ensures ReadOperand(op.left, m.memory).Ok? && ReadOperand(op.right, m.memory).Ok?
    ensures op.out.Reference? && 0 <= op.out.address < |m.memory|
    ensures var x, y := ReadOperand(op.left, m.memory).value, ReadOperand(op.right, m.memory).value;
      Perform(op, m).after == m.(memory := m.memory[op.out.address := if op.Add? then x + y else x * y], ip := m.ip + 4)
  {
  }

  /** `load_inst`: decode at the instruction pointer; past the end the
      slice panics. */
  function Fetch(m: Machine): (r: Result<OpCode, Fault>)
    ensures m.ip > |m.memory| ==> r == Err(Panicked(SliceIndexOutOfRange))
    ensures m.ip == |m.memory| ==> r == Err(Error(MemoryError(OpCodeLength)))
    ensures r.Ok? ==> m.ip + Len(r.value) <= |m.memory|
  {
    if m.ip > |m.memory| then Err(Panicked(SliceIndexOutOfRange))
    else
      var d := Decode(m.memory[m.ip..]);
      if d.Err? then Err(Error(d.error)) else Ok(d.value)
  }

  /** One turn of the `eval` loop. */
  function Step(m: Machine): (e: Effect)
    requires AllI32(m.memory)
    ensures |e.after.memory| == |m.memory| && AllI32(e.after.memory)
    ensures e.outcome.Ok? && e.outcome.value ==> e.after == m && m.ip < |m.memory|
  {
    match Fetch(m)
    case Err(f) => IntcodeOpcodes.Effect(m, Err(f))
    case Ok(op) => Perform(op, m)
  }

  datatype RunResult = Returned(value: int) | Failed(fault: Fault) | OutOfFuel

  /** `eval` with at most `fuel` instructions: the first Exit returns cell
      0, the first error or panic is returned as it is. */
  function Run(m: Machine, fuel: nat): (r: (Machine, RunResult))
    requires AllI32(m.memory)
    ensures |r.0.memory| == |m.memory| && AllI32(r.0.memory)
    ensures r.1.Returned? ==> |r.0.memory| > 0 && r.1.value == r.0.memory[0]
    decreases fuel, 0
  {
    if fuel == 0 then (m, OutOfFuel) else Resume(Step(m), fuel - 1)
  }

  function Resume(e: Effect, fuel: nat): (r: (Machine, RunResult))
    requires AllI32(e.after.memory)
    requires e.outcome.Ok? && e.outcome.value ==> |e.after.memory| > 0
    ensures |r.0.memory| == |e.after.memory| && AllI32(r.0.memory)
    ensures r.1.Returned? ==> |r.0.memory| > 0 && r.1.value == r.0.memory[0]
    decreases fuel, 1
  {
    if e.outcome.Err? then (e.after, Failed(e.outcome.error))
    else if e.outcome.value then (e.after, Returned(e.after.memory[0]))
    else Run(e.after, fuel)
  }

  /** A machine whose decoded instructions are only Add, Mul and Exit never
      reads input or writes output during a run. */
  lemma {:induction false} RunKeepsStreams(m: Machine, fuel: nat)
    requires AllI32(m.memory)
    ensures Run(m, fuel).0.input == m.input && Run(m, fuel).0.output == m.output
    decreases fuel
  {
    if fuel > 0 {
      var e := Step(m);
      assert e.after.input == m.input && e.after.output == m.output;
      if e.outcome.Ok? && !e.outcome.value {
        RunKeepsStreams(e.after, fuel - 1);
      }
    }
  }

  /** "1,9,10,3,2,3,11,0,99,30,40,50": cell 3 becomes 30 + 40, then cell 0
      becomes 70 * 50, and `eval` returns 3500. */
  const Sample: seq<int> := [1, 9, 10, 3, 2, 3, 11, 0, 99, 30, 40, 50]

  lemma SampleAdd()
    ensures Step(IntcodeOpcodes.Machine(Sample, 0, [], []))
         == IntcodeOpcodes.Effect(IntcodeOpcodes.Machine(Sample[3 := 70], 4, [], []), Ok(false))
  {
    var m := IntcodeOpcodes.Machine(Sample, 0, [], []);
    assert m.memory[0..] == Sample;
    assert Modes(1) == [false, false, false];
    var op := Add(Reference(9), Reference(10), Reference(3));
    assert Fetch(m) == Ok(op);
    assert ReadOperand(Reference(9), Sample) == Ok(30);
    assert ReadOperand(Reference(10), Sample) == Ok(40);
  }

  lemma SampleMul()
    ensures Step(IntcodeOpcodes.Machine(Sample[3 := 70], 4, [], []))
         == IntcodeOpcodes.Effect(IntcodeOpcodes.Machine(Sample[3 := 70][0 := 3500], 8, [], []), Ok(false))
  {
    var m := IntcodeOpcodes.Machine(Sample[3 := 70], 4, [], []);
    assert m.memory[4..] == [2, 3, 11, 0, 99, 30, 40, 50];
    assert Modes(2) == [false, false, false];
    var op := Mul(Reference(3), Reference(11), Reference(0));
    assert Fetch(m) == Ok(op);
    assert ReadOperand(Reference(3), m.memory) == Ok(70);
    assert ReadOperand(Reference(11), m.memory) == Ok(50);
  }

  lemma SampleExit()
    ensures Step(IntcodeOpcodes.Machine(Sample[3 := 70][0 := 3500], 8, [], [])).outcome == Ok(true)
  {
    var m := IntcodeOpcodes.Machine(Sample[3 := 70][0 := 3500], 8, [], []);
    assert m.memory[8..] == [99, 30, 40, 50];
    assert Fetch(m) == Ok(Exit);
  }

  lemma SampleRun()
    ensures Run(IntcodeOpcodes.Machine(Sample, 0, [], []), 3).1 == Returned(3500)
  {
    var m0 := IntcodeOpcodes.Machine(Sample, 0, [], []);
    var m1 := IntcodeOpcodes.Machine(Sample[3 := 70], 4, [], []);
    var m2 := IntcodeOpcodes.Machine(Sample[3 := 70][0 := 3500], 8, [], []);
    SampleAdd();
    assert Run(m0, 3) == Run(m1, 2);
    SampleMul();
    assert Run(m1, 2) == Run(m2, 1);
    SampleExit();
  }

  /** What `read_source` returns for a parse. */
  function Loaded(parsed: Result<seq<int>, string>): Result<(), ErrorKind> {
    match parsed
    case Ok(_) => Ok(())
    case Err(token) => Err(StringParseError(token))
  }

  /** The older `VM`, with the stdin/stdout handles replaced by the lines
      still to be read and the integers written so far. */
  class VM {
    var memory: seq<int>
    var initialProgram: seq<int>
    var ip: nat
    var input: seq<string>
    var output: seq<int>

    ghost predicate Valid()
      reads this
    {
      && AllI32(memory) && AllI32(initialProgram)
      && |memory| == |initialProgram|
      && FitsVec(|memory|)
    }

    function State(): Machine
      reads this
    {
      IntcodeOpcodes.Machine(memory, ip, input, output)
    }

    /** `with_io`: empty memory and program, pointer at 0. */
    constructor WithIo(lines: seq<string>)
      ensures Valid()
      ensures memory == [] && initialProgram == [] && ip == 0
      ensures input == lines && output == []
    {
      memory := [];
      initialProgram := [];
      ip := 0;
      input := lines;
      output := [];
    }

    /** `add_raw_instruction`. */
    method AddRawInstruction(instruction: int)
      requires Valid() && IsI32(instruction) && FitsVec(|memory| + 1)
      modifies this
      ensures Valid()
      ensures memory == old(memory) + [instruction]
      ensures initialProgram == old(initialProgram) + [instruction]
      ensures ip == old(ip) && input == old(input) && output == old(output)
    {
      initialProgram := initialProgram + [instruction];
      memory := memory + [instruction];
    }

    /** `reset`: pairwise copy of the program over memory, pointer to 0. */
    method Reset()
      modifies this
      ensures |memory| == |old(memory)|
      ensures forall i :: 0 <= i < |memory| ==>
        memory[i] == if i < |initialProgram| then initialProgram[i] else old(memory)[i]
      ensures ip == 0
      ensures initialProgram == old(initialProgram) && input == old(input) && output == old(output)
      ensures old(Valid()) ==> Valid() && memory == initialProgram
    {
      var n := Min(|memory|, |initialProgram|);
      var i := 0;
      while i < n
        invariant 0 <= i <= n
        invariant |memory| == |old(memory)|
        invariant initialProgram == old(initialProgram) && input == old(input) && output == old(output)
        invariant forall k :: 0 <= k < |memory| ==>
          memory[k] == if k < i then initialProgram[k] else old(memory)[k]
      {
        memory := memory[i := initialProgram[i]];
        i := i + 1;
      }
      ip := 0;
    }

    /** `read_source`: clear, reset, then push each comma-separated,
        trimmed `i32` token; the first bad token is returned as written. */
    method ReadSource(text: string) returns (r: Result<(), ErrorKind>)
      requires FitsVec(|text| + 1)
      modifies this
      ensures r == Loaded(ParseList(text, I32Token))
      ensures r.Ok? ==> Valid() && ip == 0 && memory == initialProgram && ParseList(text, I32Token) == Ok(memory)
      ensures input == old(input) && output == old(output)
    {
      r := LoadTokens(Split(text, ','), I32Token);
    }

    method LoadTokens(tokens: seq<string>, parse: string -> Option<int>) returns (r: Result<(), ErrorKind>)
      requires FitsVec(|tokens|)
      requires forall t :: parse(t).Some? ==> IsI32(parse(t).value)
      modifies this
      ensures r == Loaded(ParseTokens(tokens, parse))
      ensures r.Ok? ==> Valid() && ip == 0 && memory == initialProgram && ParseTokens(tokens, parse) == Ok(memory)
      ensures input == old(input) && output == old(output)
    {
      initialProgram := [];
      memory := [];
      Reset();
      assert memory == [] && initialProgram == [];
      var i := 0;
      while i < |tokens|
        invariant 0 <= i <= |tokens|
        invariant Valid() && ip == 0 && memory == initialProgram && |memory| == i
        invariant input == old(input) && output == old(output)
        invariant ParseTokens(tokens[..i], parse) == Ok(memory)
      {
        var v := parse(tokens[i]);
        ParseTokensExtend(tokens, parse, i, memory);
        if v.None? {
          return Err(StringParseError(tokens[i]));
        }
        AddRawInstruction(v.value);
        i := i + 1;
      }
      assert tokens[..i] == tokens;
      r := Ok(());
    }

    /** `load`: `&memory[idx]`, which panics outside memory. */
    function Load(idx: nat): (r: int)
      requires Valid() && idx < |memory|
      reads this
      ensures IsI32(r) && r == memory[idx]
    {
      memory[idx]
    }

    /** `load_inst`. */
    method LoadInst() returns (r: Result<OpCode, Fault>)
      requires Valid()
      ensures r == Fetch(State())
    {
      if ip > |memory| {
        return Err(Panicked(SliceIndexOutOfRange));
      }
      var d := Parse(memory[ip..]);
      if d.Err? {
        return Err(Error(d.error));
      }
      r := Ok(d.value);
    }

    /** `advance`. */
    method Advance(amount: nat)
      modifies this
      ensures ip == old(ip) + amount
      ensures memory == old(memory) && initialProgram == old(initialProgram)
      ensures input == old(input) && output == old(output)
    {
      ip := ip + amount;
    }

    /** `OpCode::exec` on the VM in place. */
    method Exec(op: OpCode) returns (r: Result<bool, Fault>)
      requires Valid()
      modifies this
      ensures Valid() && initialProgram == old(initialProgram)
      ensures State() == Perform(op, old(State())).after
      ensures r == Perform(op, old(State())).outcome
    {
      match op {
        case Add(_, _, _) => r := ArithmeticArm(op);
        case Mul(_, _, _) => r := ArithmeticArm(op);
        case InputInteger(out) => r := InputArm(out);
        case OutputInteger(value) => r := OutputArm(value);
        case Exit => r := Ok(true);
      }
    }

    method ArithmeticArm(op: OpCode) returns (r: Result<bool, Fault>)
      requires Valid() && (op.Add? || op.Mul?)
      modifies this
      ensures Valid() && initialProgram == old(initialProgram)
      ensures State() == ExecArithmetic(op, old(State())).after
      ensures r == ExecArithmetic(op, old(State())).outcome
    {
      var x := ReadOperand(op.left, memory);
      if x.Err? {
        return Err(x.error);
      }
      var y := ReadOperand(op.right, memory);
      if y.Err? {
        return Err(y.error);
      }
      var v := if op.Add? then x.value + y.value else x.value * y.value;
      if !IsI32(v) {
        return Err(Panicked(ArithmeticOverflow));
      }
      var cell := ReadOperandMut(op.out, memory);
      if cell.Err? {
        return Err(cell.error);
      }
      memory := memory[cell.value := v];
      Advance(Len(op));
      r := Ok(false);
    }

    method InputArm(out: Parameter) returns (r: Result<bool, Fault>)
      requires Valid()
      modifies this
      ensures Valid() && initialProgram == old(initialProgram)
      ensures State() == ExecInput(out, old(State())).after
      ensures r == ExecInput(out, old(State())).outcome
    {
      var line := IntcodeOpcodes.NextLine(input);
      input := IntcodeOpcodes.Consume(input);
      var v := ParseInt(line, true, I32_MIN, I32_MAX);
      if v.None? {
        return Err(Error(IOError(IoParseError(line))));
      }
      var cell := ReadOperandMut(out, memory);
      if cell.Err? {
        return Err(cell.error);
      }
      memory := memory[cell.value := v.value];
      r := Ok(false);
    }

    method OutputArm(value: Parameter) returns (r: Result<bool, Fault>)
      requires Valid()
      modifies this
      ensures Valid() && initialProgram == old(initialProgram)
      ensures State() == ExecOutput(value, old(State())).after
      ensures r == ExecOutput(value, old(State())).outcome
    {
      var v := ReadOperand(value, memory);
      if v.Err? {
        return Err(v.error);
      }
      output := output + [v.value];
      r := Ok(false);
    }

    /** `eval`, given a budget of `fuel` instructions. */
    method Eval(fuel: nat) returns (r: RunResult)
      requires Valid()
      modifies this
      ensures Valid() && initialProgram == old(initialProgram)
      ensures (State(), r) == Run(old(State()), fuel)
    {
      var k := fuel;
      while true
        invariant Valid() && initialProgram == old(initialProgram)
        invariant Run(State(), k) == Run(old(State()), fuel)
        decreases k
      {
        if k == 0 {
          return OutOfFuel;
        }
        var inst := LoadInst();
        if inst.Err? {
          return Failed(inst.error);
        }
        var halt := Exec(inst.value);
        if halt.Err? {
          return Failed(halt.error);
        }
        if halt.value {
          return Returned(Load(0));
        }
        k := k - 1;
      }
    }

    /** `dump`: every cell in decimal, separated by single commas. */
    method Dump() returns (s: string)
      ensures s == ShowList(memory)
      ensures |memory| == 0 ==> s == ""
    {
      s := "";
      var i := 0;
      while i < |memory|
        invariant 0 <= i <= |memory|
        invariant s == ShowList(memory[..i])
      {
        ShowListStep(memory, i);
        if i == 0 {
          s := Show(memory[i]);
        } else {
          s := s + "," + Show(memory[i]);
        }
        i := i + 1;
      }
      assert memory[..i] == memory;
    }
  }
}
