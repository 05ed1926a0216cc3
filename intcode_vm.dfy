/** The tape VM (advent_common/src/intcode/vm.rs): a memory vector, a copy
    of the program it was loaded from, an instruction pointer, and the VM's
    input and output streams. */
module IntcodeVm {
  import opened Common
  import opened Text
  import opened IntcodeErrors
  import opened IntcodeParameters
  import opened IntcodeOpcodes

  /** How `eval` ends: `Ok(memory[0])`, the first error or panic, or (in the
      model only) with its step budget spent. */
  datatype RunResult = Returned(value: int) | Failed(fault: Fault) | OutOfFuel

  /** `load_inst`: decode at the instruction pointer. `memory[ip..]`
      panics past the end; at the end it is the empty slice. */
  function Fetch(m: Machine): (r: Result<OpCode, Fault>)
    requires AllI32(m.memory)
    ensures m.ip > |m.memory| ==> r == Err(Panicked(SliceIndexOutOfRange))
    ensures m.ip == |m.memory| ==> r == Err(Error(MemoryError(OpCodeLength)))
    ensures r.Ok? ==> m.ip + Len(r.value) <= |m.memory|
    ensures r.Ok? ==> WellFormed(r.value)
  {
    if m.ip > |m.memory| then Err(Panicked(SliceIndexOutOfRange))
    else
      var d := Decode(m.memory[m.ip..]);
      if d.Err? then Err(Error(d.error))
      else
        assert forall i :: 0 <= i < |m.memory| - m.ip ==> m.memory[m.ip..][i] == m.memory[m.ip + i];
        DecodeWellFormed(m.memory[m.ip..]);
        Ok(d.value)
  }

  /** One turn of the `eval` loop: fetch, then execute. */
  function Step(m: Machine): (e: Effect)
    requires AllI32(m.memory)
    ensures |e.after.memory| == |m.memory| && AllI32(e.after.memory)
    ensures e.outcome.Ok? && e.outcome.value ==> e.after == m && m.ip < |m.memory|
  {
    match Fetch(m)
    case Err(f) => Effect(m, Err(f))
    case Ok(op) => Exec(op, m)
  }

  /** `eval` with at most `fuel` instructions: it stops at the first Exit,
      returning cell 0, or at the first error or panic. */
  function Run(m: Machine, fuel: nat): (r: (Machine, RunResult))
    requires AllI32(m.memory)
    ensures |r.0.memory| == |m.memory| && AllI32(r.0.memory)
    ensures r.1.Returned? ==> |r.0.memory| > 0 && r.1.value == r.0.memory[0]
    decreases fuel, 0
  {
    if fuel == 0 then (m, OutOfFuel) else Resume(Step(m), fuel - 1)
  }

  /** The rest of a run after one step had effect `e`. */
  function Resume(e: Effect, fuel: nat): (r: (Machine, RunResult))
    requires AllI32(e.after.memory)
    requires e.outcome.Ok? && e.outcome.value ==> |e.after.memory| > 0
    ensures |r.0.memory| == |e.after.memory| && AllI32(r.0.memory)
    ensures r.1.Returned? ==> |r.0.memory| > 0 && r.1.value == r.0.memory[0]
    decreases fuel, 1
  {
    if e.outcome.Err? then (e.after, Failed(e.outcome.error))
    else if e.outcome.value then (e.after, Returned(e.after.memory[0]))
    else Run(e.after, fuel)
  }

  /** Running longer never changes a run that has already stopped. */
  lemma {:induction false} RunMonotone(m: Machine, fuel: nat, more: nat)
    requires AllI32(m.memory)
    requires !Run(m, fuel).1.OutOfFuel?
    requires fuel <= more
    ensures Run(m, more) == Run(m, fuel)
    decreases fuel, 0
  {
    if fuel > 0 {
      ResumeMonotone(Step(m), fuel - 1, more - 1);
    }
  }

  lemma {:induction false} ResumeMonotone(e: Effect, fuel: nat, more: nat)
    requires AllI32(e.after.memory)
    requires e.outcome.Ok? && e.outcome.value ==> |e.after.memory| > 0
    requires !Resume(e, fuel).1.OutOfFuel?
    requires fuel <= more
    ensures Resume(e, more) == Resume(e, fuel)
    decreases fuel, 1
  {
    if e.outcome.Ok? && !e.outcome.value {
      RunMonotone(e.after, fuel, more);
    }
  }

  /** "1,0,0,0,99": cell 0 becomes 1 + 1 and `eval` returns it. */
  lemma AddExample()
    ensures Run(Machine([1, 0, 0, 0, 99], 0, [], []), 2)
         == (Machine([2, 0, 0, 0, 99], 4, [], []), Returned(2))
  {
    var m := Machine([1, 0, 0, 0, 99], 0, [], []);
    assert ModeMask(1) == 0;
    assert Fetch(m) == Ok(Add(BinaryParams(Reference(0), Reference(0), Reference(0))));
    var m1 := Machine([2, 0, 0, 0, 99], 4, [], []);
    assert Step(m) == Effect(m1, Ok(false));
    assert Fetch(m1) == Ok(Exit);
  }

  /** "1002,4,3,4,33": the thousands digit makes operand 2 immediate, so
      cell 4 becomes 33 * 3 = 99, which is then executed as Exit. */
  lemma ImmediateModeExample()
    ensures Run(Machine([1002, 4, 3, 4, 33], 0, [], []), 2)
         == (Machine([1002, 4, 3, 4, 99], 4, [], []), Returned(1002))
  {
    var m := Machine([1002, 4, 3, 4, 33], 0, [], []);
    ModeMaskDigits(1002);
    assert ModeMask(1002) == 2;
    assert Fetch(m) == Ok(Mul(BinaryParams(Reference(4), Immediate(3), Reference(4))));
    var m1 := Machine([1002, 4, 3, 4, 99], 4, [], []);
    assert Step(m) == Effect(m1, Ok(false));
    assert Fetch(m1) == Ok(Exit);
  }
  const EqualsEight: seq<int> := [3, 9, 8, 9, 10, 9, 4, 9, 99, -1, 8]

  /** The input line "8" reads as the number 8. */
  lemma EightLineParses()
    ensures ParseInt(Trim("8"), true, I32_MIN, I32_MAX) == Some(8)
  {
    assert Trim("8") == "8" by { TrimKeepsInnerText("8"); }
    assert "8"[..0] == "";
  }

  lemma EqualsEightInput()
    ensures Step(Machine(EqualsEight, 0, ["8"], [])) == Effect(Machine(EqualsEight[9 := 8], 2, [], []), Ok(false))
  {
    var m := Machine(EqualsEight, 0, ["8"], []);
    var u := UnaryParams(Reference(9));
    assert ModeMask(3) == 0;
    assert m.memory[0..] == EqualsEight;
    assert Fetch(m) == Ok(InputInteger(u));
    var line := NextLine(m.input);
    assert line == "8";
    EightLineParses();
    var m1 := m.(input := Consume(m.input));
    assert m1 == Machine(EqualsEight, 0, [], []);
    assert ReadMut(Reference(9), m1.memory) == Ok(9);
    assert ExecInput(u, m) == WriteOut(m1, Reference(9), 8, 2);
  }

  lemma EqualsEightCompare()
    ensures Step(Machine(EqualsEight[9 := 8], 2, [], [])) == Effect(Machine(EqualsEight[9 := 1], 6, [], []), Ok(false))
  {
    assert ModeMask(8) == 0;
    var m := Machine(EqualsEight[9 := 8], 2, [], []);
    assert m.memory[2..] == [8, 9, 10, 9, 4, 9, 99, 8, 8];
    var op := Equals(BinaryParams(Reference(9), Reference(10), Reference(9)));
    assert Decode([8, 9, 10, 9, 4, 9, 99, 8, 8]) == Ok(op);
    assert Fetch(m) == Ok(op);
    assert Read(Reference(9), m.memory) == Ok(8) && Read(Reference(10), m.memory) == Ok(8);
    assert Combine(op, 8, 8) == 1;
    assert ReadMut(Reference(9), m.memory) == Ok(9);
    assert ExecBinary(op, m) == Effect(Machine(EqualsEight[9 := 1], 6, [], []), Ok(false));
  }

  lemma EqualsEightOutput()
    ensures Step(Machine(EqualsEight[9 := 1], 6, [], [])) == Effect(Machine(EqualsEight[9 := 1], 8, [], [1]), Ok(false))
  {
    assert ModeMask(4) == 0;
    var m := Machine(EqualsEight[9 := 1], 6, [], []);
    assert m.memory[6..] == [4, 9, 99, 1, 8];
    assert Decode([4, 9, 99, 1, 8]) == Ok(OutputInteger(UnaryParams(Reference(9))));
    assert Fetch(m) == Ok(OutputInteger(UnaryParams(Reference(9))));
    assert Read(Reference(9), m.memory) == Ok(1);
  }

  lemma EqualsEightExit()
    ensures Step(Machine(EqualsEight[9 := 1], 8, [], [1])) == Effect(Machine(EqualsEight[9 := 1], 8, [], [1]), Ok(true))
  {
    var m := Machine(EqualsEight[9 := 1], 8, [], [1]);
    assert m.memory[8..] == [99, 1, 8];
    assert Fetch(m) == Ok(Exit);
  }

  /** A step that neither stops nor fails leaves the rest of the run to
      the machine it produced. */
  lemma RunAfterStep(m: Machine, fuel: nat)
    requires AllI32(m.memory) && Step(m).outcome == Ok(false)
    ensures Run(m, fuel + 1) == Run(Step(m).after, fuel)
  {
  }

  /** "3,9,8,9,10,9,4,9,99,-1,8" outputs 1 when the input line is 8. */
  lemma EqualsEightExample()
    ensures Run(Machine(EqualsEight, 0, ["8"], []), 4).1 == Returned(3)
    ensures Run(Machine(EqualsEight, 0, ["8"], []), 4).0.output == [1]
  {
    var m0 := Machine(EqualsEight, 0, ["8"], []);
    var m1 := Machine(EqualsEight[9 := 8], 2, [], []);
    var m2 := Machine(EqualsEight[9 := 1], 6, [], []);
    var m3 := Machine(EqualsEight[9 := 1], 8, [], [1]);
    assert AllI32(EqualsEight);
    EqualsEightInput();
    RunAfterStep(m0, 3);
    EqualsEightCompare();
    RunAfterStep(m1, 2);
    EqualsEightOutput();
    RunAfterStep(m2, 1);
    EqualsEightExit();
    assert Run(m3, 1) == (m3, Returned(3));
  }

  /** What `read_source` returns for a parse: success, or the first bad
      token as `StringParseError`. */
  function Loaded(parsed: Result<seq<int>, string>): Result<(), ErrorKind> {
    match parsed
    case Ok(_) => Ok(())
    case Err(token) => Err(StringParseError(token))
  }

  /** `VM`: fields as in vm.rs, with the stdin/stdout handles replaced by the
      lines still to be read and the integers written so far. */
  class VM {
    var memory: seq<int>
    var initialProgram: seq<int>
    var ip: nat
    var input: seq<string>
    var output: seq<int>

    /** Every cell is an `i32`, both vectors are built and reset in
        lockstep, and no vector outgrows `isize::MAX`. */
    ghost predicate Valid()
      reads this
    {
      && AllI32(memory) && AllI32(initialProgram)
      && |memory| == |initialProgram|
      && FitsVec(|memory|)
    }

    /** The part of the VM `exec` works on. */
    function State(): Machine
      reads this
    {
      Machine(memory, ip, input, output)
    }

    /** `with_io`: empty memory and program, pointer at 0. */
    constructor WithIo(lines: seq<string>)
      ensures Valid()
      ensures memory == [] && initialProgram == [] && ip == 0
      ensures input == lines && output == []
    {
      memory := [];
      initialProgram := [];
      ip := 0;
      input := lines;
      output := [];
    }

    /** `add_raw_instruction`: push onto both vectors. */
    method AddRawInstruction(instruction: int)
      requires Valid() && IsI32(instruction) && FitsVec(|memory| + 1)
      modifies this
      ensures Valid()
      ensures memory == old(memory) + [instruction]
      ensures initialProgram == old(initialProgram) + [instruction]
      ensures ip == old(ip) && input == old(input) && output == old(output)
    {
      initialProgram := initialProgram + [instruction];
      memory := memory + [instruction];
    }

    /** `reset`: copy the program over memory pairwise (as far as the
        shorter of the two reaches) and rewind the pointer. */
    method Reset()
      modifies this
      ensures |memory| == |old(memory)|
      ensures forall i :: 0 <= i < |memory| ==>
        memory[i] == if i < |initialProgram| then initialProgram[i] else old(memory)[i]
      ensures ip == 0
      ensures initialProgram == old(initialProgram) && input == old(input) && output == old(output)
      ensures old(Valid()) ==> Valid() && memory == initialProgram
    {
      var n := Min(|memory|, |initialProgram|);
      var i := 0;
      while i < n
        invariant 0 <= i <= n
        invariant |memory| == |old(memory)|
        invariant initialProgram == old(initialProgram) && input == old(input) && output == old(output)
        invariant forall k :: 0 <= k < |memory| ==>
          memory[k] == if k < i then initialProgram[k] else old(memory)[k]
      {
        memory := memory[i := initialProgram[i]];
        i := i + 1;
      }
      ip := 0;
    }

    /** `read_source`: clear both vectors, then push each comma-separated,
        trimmed `i32` token; the first bad token is returned as written. On
        failure Rust drops the VM, so nothing is promised about it then. */
    method ReadSource(text: string) returns (r: Result<(), ErrorKind>)
      requires FitsVec(|text| + 1)
      modifies this
      ensures r == Loaded(ParseList(text, I32Token))
      ensures r.Ok? ==> Valid() && ip == 0 && memory == initialProgram && ParseList(text, I32Token) == Ok(memory)
      ensures input == old(input) && output == old(output)
    {
      r := LoadTokens(Split(text, ','), I32Token);
    }

    /** The body of `read_source` once the text is split: empty both
        vectors, `reset`, then push each token's value in order. */
    method LoadTokens(tokens: seq<string>, parse: string -> Option<int>) returns (r: Result<(), ErrorKind>)
      requires FitsVec(|tokens|)
      requires forall t :: parse(t).Some? ==> IsI32(parse(t).value)
      modifies this
      ensures r == Loaded(ParseTokens(tokens, parse))
      ensures r.Ok? ==> Valid() && ip == 0 && memory == initialProgram && ParseTokens(tokens, parse) == Ok(memory)
      ensures input == old(input) && output == old(output)
    {
      initialProgram := [];
      memory := [];
      Reset();
      assert memory == [] && initialProgram == [];
      var i := 0;
      while i < |tokens|
        invariant 0 <= i <= |tokens|
        invariant Valid() && ip == 0 && memory == initialProgram && |memory| == i
        invariant input == old(input) && output == old(output)
        invariant ParseTokens(tokens[..i], parse) == Ok(memory)
      {
        var v := parse(tokens[i]);
        ParseTokensExtend(tokens, parse, i, memory);
        if v.None? {
          return Err(StringParseError(tokens[i]));
        }
        AddRawInstruction(v.value);
        i := i + 1;
      }
      assert tokens[..i] == tokens;
      r := Ok(());
    }

    function Ip(): nat
      reads this
    {
      ip
    }

    /** `load`: the cell at `idx`, if there is one. */
    function Load(idx: nat): (r: Option<int>)
      reads this
      ensures r.Some? <==> idx < |memory|
      ensures r.Some? ==> r.value == memory[idx]
    {
      if idx < |memory| then Some(memory[idx]) else None
    }

    /** `load_mut`: the writable cell `idx as usize`. A negative `i32`
        sign-extends past every possible length, so it finds no cell. */
    function LoadMut(idx: int): (r: Option<nat>)
      requires Valid() && IsI32(idx)
      reads this
      ensures r.Some? <==> 0 <= idx < |memory|
      ensures r.Some? ==> r.value == idx
    {
      var address := I32AsUsize(idx);
      if address < |memory| then Some(address) else None
    }

    /** `load_inst`: `memory[ip..]` and `OpCode::parse`. */
    method LoadInst() returns (r: Result<OpCode, Fault>)
      requires Valid()
      ensures r == Fetch(State())
    {
      if ip > |memory| {
        return Err(Panicked(SliceIndexOutOfRange));
      }
      var d := Parse(memory[ip..]);
      if d.Err? {
        return Err(Error(d.error));
      }
      r := Ok(d.value);
    }

    /** `advance`: move the pointer forward by `amount`. */
    method Advance(amount: nat)
      modifies this
      ensures ip == old(ip) + amount
      ensures memory == old(memory) && initialProgram == old(initialProgram)
      ensures input == old(input) && output == old(output)
    {
      JumpTo(amount + ip);
    }

    /** `jump_to`: set the pointer. */
    method JumpTo(to: nat)
      modifies this
      ensures ip == to
      ensures memory == old(memory) && initialProgram == old(initialProgram)
      ensures input == old(input) && output == old(output)
    {
      ip := to;
    }

    /** `*cell = v` through a cell `read_mut` resolved. */
    method Store(address: nat, v: int)
      requires Valid() && address < |memory| && IsI32(v)
      modifies this
      ensures Valid()
      ensures memory == old(memory)[address := v]
      ensures ip == old(ip) && initialProgram == old(initialProgram)
      ensures input == old(input) && output == old(output)
    {
      memory := memory[address := v];
    }

    /** `OpCode::exec` performed on the VM in place. */
    method Exec(op: OpCode) returns (r: Result<bool, Fault>)
      requires Valid() && WellFormed(op)
      modifies this
      ensures Valid() && initialProgram == old(initialProgram)
      ensures State() == IntcodeOpcodes.Exec(op, old(State())).after
      ensures r == IntcodeOpcodes.Exec(op, old(State())).outcome
    {
      match op {
        case Add(b) => r := ArithmeticArm(op);
        case Mul(b) => r := ArithmeticArm(op);
        case LessThan(b) => r := ArithmeticArm(op);
        case Equals(b) => r := ArithmeticArm(op);
        case InputInteger(u) => r := InputArm(u);
        case OutputInteger(u) => r := OutputArm(u);
        case JumpIfTrue(c) => r := JumpArm(c, false);
        case JumpIfFalse(c) => r := JumpArm(c, true);
        case Exit => r := Ok(true);
      }
    }

    /** The arithmetic and comparison arm of `exec`. */
    method ArithmeticArm(op: OpCode) returns (r: Result<bool, Fault>)
      requires Valid() && Binary(op) && WellFormed(op)
      modifies this
      ensures Valid() && initialProgram == old(initialProgram)
      ensures State() == IntcodeOpcodes.Exec(op, old(State())).after
      ensures r == IntcodeOpcodes.Exec(op, old(State())).outcome
    {
      var x := Read(op.b.left, memory);
      if x.Err? {
        return Err(Error(x.error));
      }
      var y := Read(op.b.right, memory);
      if y.Err? {
        return Err(Error(y.error));
      }
      var v := Combine(op, x.value, y.value);
      if !IsI32(v) {
        return Err(Panicked(ArithmeticOverflow));
      }
      var cell := ReadMut(op.b.out, memory);
      if cell.Err? {
        return Err(Error(cell.error));
      }
      Store(cell.value, v);
      Advance(4);
      r := Ok(false);
    }

    /** The input arm of `exec`: the line is consumed whatever happens. */
    method InputArm(u: UnaryParams) returns (r: Result<bool, Fault>)
      requires Valid()
      modifies this
      ensures Valid() && initialProgram == old(initialProgram)
      ensures State() == ExecInput(u, old(State())).after
      ensures r == ExecInput(u, old(State())).outcome
    {
      var line := NextLine(input);
      input := Consume(input);
      var v := ParseInt(Trim(line), true, I32_MIN, I32_MAX);
      if v.None? {
        return Err(Error(IOError(IoParseError(line))));
      }
      var cell := ReadMut(u.value, memory);
      if cell.Err? {
        return Err(Error(cell.error));
      }
      Store(cell.value, v.value);
      Advance(2);
      r := Ok(false);
    }

    /** The output arm of `exec`. */
    method OutputArm(u: UnaryParams) returns (r: Result<bool, Fault>)
      requires Valid()
      modifies this
      ensures Valid() && initialProgram == old(initialProgram)
      ensures State() == ExecOutput(u, old(State())).after
      ensures r == ExecOutput(u, old(State())).outcome
    {
      var v := Read(u.value, memory);
      if v.Err? {
        return Err(Error(v.error));
      }
      output := output + [v.value];
      Advance(2);
      r := Ok(false);
    }

    /** The jump arms of `exec`. */
    method JumpArm(c: ConditionParams, jumpWhenZero: bool) returns (r: Result<bool, Fault>)
      requires Valid() && IsI32(Word(c.location))
      modifies this
      ensures Valid() && initialProgram == old(initialProgram)
      ensures State() == IntcodeOpcodes.ExecJump(c, jumpWhenZero, old(State())).after
      ensures r == IntcodeOpcodes.ExecJump(c, jumpWhenZero, old(State())).outcome
    {
      var t := Read(c.test, memory);
      if t.Err? {
        return Err(Error(t.error));
      }
      if (t.value == 0) == jumpWhenZero {
        var target := Read(c.location, memory);
        if target.Err? {
          return Err(Error(target.error));
        }
        JumpTo(I32AsUsize(target.value));
        return Ok(false);
      }
      Advance(3);
      r := Ok(false);
    }

    /** `eval`, given a budget of `fuel` instructions. */
    method Eval(fuel: nat) returns (r: RunResult)
      requires Valid()
      modifies this
      ensures Valid() && initialProgram == old(initialProgram)
      ensures (State(), r) == Run(old(State()), fuel)
    {
      var k := fuel;
      while true
        invariant Valid() && initialProgram == old(initialProgram)
        invariant Run(State(), k) == Run(old(State()), fuel)
        decreases k
      {
        if k == 0 {
          return OutOfFuel;
        }
        var inst := LoadInst();
        if inst.Err? {
          return Failed(inst.error);
        }
        var halt := Exec(inst.value);
        if halt.Err? {
          return Failed(halt.error);
        }
        if halt.value {
          return Returned(memory[0]);
        }
        k := k - 1;
      }
    }

    /** `dump`: every cell in decimal, separated by single commas; see
        Text.ShowI32ListParses for reading the text back. */
    method Dump() returns (s: string)
      ensures s == ShowList(memory)
      ensures |memory| == 0 ==> s == ""
    {
      s := "";
      var i := 0;
      while i < |memory|
        invariant 0 <= i <= |memory|
        invariant s == ShowList(memory[..i])
      {
        ShowListStep(memory, i);
        if i == 0 {
          s := Show(memory[i]);
        } else {
          s := s + "," + Show(memory[i]);
        }
        i := i + 1;
      }
      assert memory[..i] == memory;
    }
  }
}
