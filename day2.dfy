/** Day 2 (day_2/src/main.rs): a self-contained Intcode machine over
    `usize` cells that knows Add (1), Mul (2) and Halt (99), and the search
    for the noun and verb (cells 1 and 2) that make the program leave
    19690720 in cell 0.

    Rust panics (an index outside memory, a `usize` overflow, an unknown
    opcode) are outcomes here. `eval` loops until Halt; the model gives it a
    budget of steps. */
module Day2 {
  import opened Common
  import opened Text
  import opened IntcodeErrors

  /** The errors `main` can return. Reading stdin is not modelled, so
      `StdinReadToString` never arises. */
  datatype ErrorKind = ParseError(token: string) | NoResult

  predicate IsUsize(x: int) { 0 <= x < USIZE_MODULUS }

  predicate AllUsize(s: seq<int>) { forall i :: 0 <= i < |s| ==> IsUsize(s[i]) }

  /** One token as `from_source` reads it: trimmed, then parsed as a
      `usize`. */
  function UsizeToken(token: string): (r: Option<int>)
    ensures r.Some? ==> IsUsize(r.value)
  {
    ParseInt(Trim(token), false, 0, USIZE_MODULUS - 1)
  }

  /** What `dump` prints reads back, through `from_source`'s tokenizer, as
      the same memory. */
  lemma DumpReadsBack(xs: seq<int>)
    requires |xs| >= 1 && AllUsize(xs)
    ensures ParseList(ShowList(xs), UsizeToken) == Ok(xs)
  {
    forall i | 0 <= i < |xs| ensures UsizeToken(Show(xs[i])) == Some(xs[i]) {
      ShowParses(xs[i], false, 0, USIZE_MODULUS - 1);
    }
    ShowListParses(xs, UsizeToken);
  }

  // ---------------------------------------------------------------------
  // Evaluation as functions

  /** The memory and the instruction pointer. */
  datatype Tape = Tape(memory: seq<int>, ip: nat)

  /** What one turn of the `eval` loop does. */
  datatype Status = Continue | Halt | Crash(panic: Panic)

  /** `memory[memory[at]]`, the operand whose address is stored at `at`,
      or `None` where either index panics. */
  function Operand(memory: seq<int>, at: nat): (r: Option<int>)
    ensures r.Some? <==> at < |memory| && 0 <= memory[at] < |memory|
    ensures r.Some? ==> r.value == memory[memory[at]]
  {
    if at < |memory| && 0 <= memory[at] < |memory| then Some(memory[memory[at]]) else None
  }

  /** One turn of the `eval` loop: the operands are loaded and combined
      before the output cell is resolved. */
  function Step(t: Tape): (r: (Tape, Status))
    requires AllUsize(t.memory)
    ensures |r.0.memory| == |t.memory| && AllUsize(r.0.memory)
    ensures !r.1.Continue? ==> r.0 == t
  {
    var m := t.memory;
    if t.ip >= |m| then (t, Crash(SliceIndexOutOfRange))
    else if m[t.ip] == 1 || m[t.ip] == 2 then
      var left := Operand(m, t.ip + 1);
      var right := Operand(m, t.ip + 2);
      if left.None? || right.None? then (t, Crash(SliceIndexOutOfRange))
      else
        var v := if m[t.ip] == 1 then left.value + right.value else left.value * right.value;
        if !IsUsize(v) then (t, Crash(ArithmeticOverflow))
        else if t.ip + 3 >= |m| || !(0 <= m[t.ip + 3] < |m|) then (t, Crash(SliceIndexOutOfRange))
        else (Tape(m[m[t.ip + 3] := v], t.ip + 4), Continue)
    else if m[t.ip] == 99 then (t, Halt)
    else (t, Crash(UnknownOpcode(m[t.ip])))
  }

  /** The turn halts exactly at opcode 99; running off the end of memory
      panics, and so does any opcode other than 1, 2 and 99. */
  lemma StepStops(t: Tape)
    requires AllUsize(t.memory)
    ensures Step(t).1 == Halt <==> t.ip < |t.memory| && t.memory[t.ip] == 99
    ensures t.ip >= |t.memory| ==> Step(t).1 == Crash(SliceIndexOutOfRange)
    ensures t.ip < |t.memory| && t.memory[t.ip] != 1 && t.memory[t.ip] != 2 && t.memory[t.ip] != 99
      ==> Step(t).1 == Crash(UnknownOpcode(t.memory[t.ip]))
  {
  }

  /** Opcode 1 (2) that completes stores the sum (product) of the two cells
      its parameters name into the cell its third parameter names, changes
      no other cell and advances by 4. */
  lemma StepStores(t: Tape)
    requires AllUsize(t.memory)
    requires Step(t).1 == Continue
    ensures t.ip + 3 < |t.memory|
    ensures var m := t.memory;
      var x, y, out := m[m[t.ip + 1]], m[m[t.ip + 2]], m[t.ip + 3];
      && (m[t.ip] == 1 || m[t.ip] == 2)
      && 0 <= out < |m|
      && Step(t).0 == Tape(m[out := if m[t.ip] == 1 then x + y else x * y], t.ip + 4)
  {
  }

  /** How `eval` ends: at Halt, with a panic, or (in the model only) with
      its step budget spent. */
  datatype End = Halted | Crashed(panic: Panic) | OutOfFuel

  function Run(t: Tape, fuel: nat): (r: (Tape, End))
    requires AllUsize(t.memory)
    ensures |r.0.memory| == |t.memory| && AllUsize(r.0.memory)
    ensures r.1.Halted? ==> r.0.ip < |r.0.memory| && r.0.memory[r.0.ip] == 99
    decreases fuel
  {
    if fuel == 0 then (t, OutOfFuel)
    else
      var s := Step(t);
      match s.1
      case Continue => Run(s.0, fuel - 1)
      case Halt => (s.0, Halted)
      case Crash(p) => (s.0, Crashed(p))
  }

  /** "1,0,0,0,99" becomes "2,0,0,0,99". */
  lemma AddExample()
    ensures Run(Tape([1, 0, 0, 0, 99], 0), 2) == (Tape([2, 0, 0, 0, 99], 4), Halted)
  {
    var m := [1, 0, 0, 0, 99];
    assert Operand(m, 1) == Some(1) && Operand(m, 2) == Some(1);
    assert m[0 := 2] == [2, 0, 0, 0, 99];
    assert Step(Tape(m, 0)) == (Tape([2, 0, 0, 0, 99], 4), Continue);
  }

  /** "1,9,10,3,2,3,11,0,99,30,40,50" ends with 3500 in cell 0. */
  lemma SampleExample()
    ensures Run(Tape([1, 9, 10, 3, 2, 3, 11, 0, 99, 30, 40, 50], 0), 3)
         == (Tape([3500, 9, 10, 70, 2, 3, 11, 0, 99, 30, 40, 50], 8), Halted)
  {
    SampleAddStep();
    SampleMulStep();
    var t2 := Tape([3500, 9, 10, 70, 2, 3, 11, 0, 99, 30, 40, 50], 8);
    assert Step(t2) == (t2, Halt);
  }

  /** The sample's first turn: 30 + 40 stored at address 3. */
  lemma SampleAddStep()
    ensures Step(Tape([1, 9, 10, 3, 2, 3, 11, 0, 99, 30, 40, 50], 0))
         == (Tape([1, 9, 10, 70, 2, 3, 11, 0, 99, 30, 40, 50], 4), Continue)
  {
    var m := [1, 9, 10, 3, 2, 3, 11, 0, 99, 30, 40, 50];
    assert Operand(m, 1) == Some(30) && Operand(m, 2) == Some(40);
    assert m[3 := 70] == [1, 9, 10, 70, 2, 3, 11, 0, 99, 30, 40, 50];
  }

  /** The sample's second turn: 70 * 50 stored at address 0. */
  lemma SampleMulStep()
    ensures Step(Tape([1, 9, 10, 70, 2, 3, 11, 0, 99, 30, 40, 50], 4))
         == (Tape([3500, 9, 10, 70, 2, 3, 11, 0, 99, 30, 40, 50], 8), Continue)
  {
    var m := [1, 9, 10, 70, 2, 3, 11, 0, 99, 30, 40, 50];
    assert Operand(m, 5) == Some(70) && Operand(m, 6) == Some(50);
    assert m[0 := 3500] == [3500, 9, 10, 70, 2, 3, 11, 0, 99, 30, 40, 50];
  }

  // ---------------------------------------------------------------------
  // The noun/verb search as functions

  const Target: int := 19690720

  /** The outcome of `main`'s search: the first pair that hits, or no pair,
      or the panic or budget exhaustion that ended it early. */
  datatype Answer = Found(noun: nat, verb: nat) | NotFound | SearchCrashed(panic: Panic) | SearchOutOfFuel

  /** What `main` prints for a pair: `100 * noun + verb`, which gives the
      pair back. */
  function Reported(noun: nat, verb: nat): (r: nat)
    requires noun <= 99 && verb <= 99
    ensures r < 10000 && r / 100 == noun && r % 100 == verb
  {
    100 * noun + verb
  }

  /** Run the program with `noun` in cell 1 and `verb` in cell 2; writing
      those cells panics on a program shorter than three cells. */
  function Attempt(initial: seq<int>, noun: nat, verb: nat, fuel: nat): (r: (Tape, End))
    requires AllUsize(initial) && noun <= 99 && verb <= 99
    ensures r.1.Halted? ==> |r.0.memory| == |initial| >= 3
  {
    if |initial| < 3 then (Tape(initial, 0), Crashed(SliceIndexOutOfRange))
    else Run(Tape(initial[1 := noun][2 := verb], 0), fuel)
  }

  /** How one attempt bears on the search: it hit (halted with the target
      in cell 0), missed (halted with something else there), or ended the
      search with a panic or an exhausted budget. */
  datatype Verdict = Hit | Miss | Blew(panic: Panic) | Exhausted

  function Judge(a: (Tape, End)): (r: Verdict)
    requires a.1.Halted? ==> |a.0.memory| >= 1
    ensures r == Hit <==> a.1.Halted? && a.0.memory[0] == Target
    ensures r == Miss <==> a.1.Halted? && a.0.memory[0] != Target
    ensures r == Exhausted <==> a.1.OutOfFuel?
  {
    match a.1
    case Halted => if a.0.memory[0] == Target then Hit else Miss
    case Crashed(p) => Blew(p)
    case OutOfFuel => Exhausted
  }

  /** The verdict on every pair in 0..=99 x 0..=99 for one program. */
  type Verdicts = (nat, nat) -> Verdict

  ghost function VerdictsOf(initial: seq<int>, fuel: nat): Verdicts
    requires AllUsize(initial)
  {
    (n: nat, v: nat) => if n <= 99 && v <= 99 then Judge(Attempt(initial, n, v, fuel)) else Exhausted
  }

  /** `verdicts` holds the verdict of every attempt on `initial`. The
      facts are made available only where an attempt is mentioned. */
  ghost predicate Tabulates(verdicts: Verdicts, initial: seq<int>, fuel: nat)
    requires AllUsize(initial)
  {
    forall n: nat, v: nat {:trigger Attempt(initial, n, v, fuel)} :: n <= 99 && v <= 99 ==>
      verdicts(n, v) == Judge(Attempt(initial, n, v, fuel))
  }

  /** What `main` concludes from one attempt at the pair (noun, verb):
      `NotFound` means "go on with the next pair". */
  function Settle(verdict: Verdict, noun: nat, verb: nat): (r: Answer)
    ensures r == NotFound <==> verdict == Miss
    ensures r.Found? <==> verdict == Hit
    ensures r.Found? ==> r.noun == noun && r.verb == verb
  {
    match verdict
    case Hit => Found(noun, verb)
    case Miss => NotFound
    case Blew(p) => SearchCrashed(p)
    case Exhausted => SearchOutOfFuel
  }

  /** (n, v) comes no earlier than (noun, verb) in noun-major order. */
  predicate NotBefore(noun: nat, verb: nat, n: nat, v: nat) {
    noun < n || (noun == n && verb <= v)
  }

  /** Every pair from (noun, verb) up to, not including, (n, v) missed. */
  predicate MissedUntil(verdicts: Verdicts, noun: nat, verb: nat, n: nat, v: nat) {
    forall n', v' :: n' <= 99 && v' <= 99 && NotBefore(noun, verb, n', v') && !NotBefore(n, v, n', v')
      ==> verdicts(n', v') == Miss
  }

  /** The search from the pair (noun, verb) on, noun-major: it stops at the
      first pair that does not miss, or after (99, 99). */
  function SearchFrom(verdicts: Verdicts, noun: nat, verb: nat): Answer
    requires noun <= 100 && verb <= 100
    decreases 100 - noun, 100 - verb
  {
    if noun == 100 then NotFound
    else if verb == 100 then SearchFrom(verdicts, noun + 1, 0)
    else if verdicts(noun, verb) == Miss then SearchFrom(verdicts, noun, verb + 1)
    else Settle(verdicts(noun, verb), noun, verb)
  }

  /** A search that finds a pair finds the first pair, in noun-major order,
      that hits: every pair before it missed. */
  lemma {:induction false} SearchFindsFirstHit(verdicts: Verdicts, noun: nat, verb: nat)
    requires noun <= 100 && verb <= 100
    ensures var r := SearchFrom(verdicts, noun, verb);
      r.Found? ==>
        && r.noun <= 99 && r.verb <= 99 && NotBefore(noun, verb, r.noun, r.verb)
        && verdicts(r.noun, r.verb) == Hit
        && MissedUntil(verdicts, noun, verb, r.noun, r.verb)
    decreases 100 - noun, 100 - verb
  {
    if noun == 100 {
    } else if verb == 100 {
      SearchFindsFirstHit(verdicts, noun + 1, 0);
    } else if verdicts(noun, verb) == Miss {
      SearchFindsFirstHit(verdicts, noun, verb + 1);
    }
  }

  /** The search reports no result exactly when every pair from the start
      on missed. */
  lemma {:induction false} SearchNotFoundIffAllMiss(verdicts: Verdicts, noun: nat, verb: nat)
    requires noun <= 100 && verb <= 100
    ensures SearchFrom(verdicts, noun, verb) == NotFound <==> MissedUntil(verdicts, noun, verb, 100, 0)
    decreases 100 - noun, 100 - verb
  {
    if noun == 100 {
    } else if verb == 100 {
      SearchNotFoundIffAllMiss(verdicts, noun + 1, 0);
    } else if verdicts(noun, verb) == Miss {
      SearchNotFoundIffAllMiss(verdicts, noun, verb + 1);
    } else {
      assert !MissedUntil(verdicts, noun, verb, 100, 0) by {
        assert NotBefore(noun, verb, noun, verb) && !NotBefore(100, 0, noun, verb);
      }
    }
  }

  /** A search that ends with a panic or an exhausted budget ends at the
      first pair whose attempt panicked or ran out, after misses only. */
  lemma {:induction false} SearchStopsAtFirstStop(verdicts: Verdicts, noun: nat, verb: nat)
    requires noun <= 100 && verb <= 100
    ensures var r := SearchFrom(verdicts, noun, verb);
      (r.SearchCrashed? || r.SearchOutOfFuel?) ==>
        exists n, v :: n <= 99 && v <= 99 && NotBefore(noun, verb, n, v)
          && Settle(verdicts(n, v), n, v) == r
          && MissedUntil(verdicts, noun, verb, n, v)
    decreases 100 - noun, 100 - verb
  {
    var r := SearchFrom(verdicts, noun, verb);
    if noun == 100 {
    } else if verb == 100 {
      SearchStopsAtFirstStop(verdicts, noun + 1, 0);
    } else if verdicts(noun, verb) == Miss {
      SearchStopsAtFirstStop(verdicts, noun, verb + 1);
      if r.SearchCrashed? || r.SearchOutOfFuel? {
        var n, v :| n <= 99 && v <= 99 && NotBefore(noun, verb + 1, n, v)
          && Settle(verdicts(n, v), n, v) == r && MissedUntil(verdicts, noun, verb + 1, n, v);
        assert NotBefore(noun, verb, n, v) && MissedUntil(verdicts, noun, verb, n, v);
      }
    } else {
      assert MissedUntil(verdicts, noun, verb, noun, verb);
    }
  }

  /** `eval` always ends: every step that goes on moves the instruction
      pointer 4 cells on over memory whose length never changes, so more
      steps than there are cells ahead always reach a halt or a panic. */
  lemma {:induction false} RunEnds(t: Tape, fuel: nat)
    requires AllUsize(t.memory) && fuel > 0 && t.ip + fuel > |t.memory|
    ensures !Run(t, fuel).1.OutOfFuel?
    decreases fuel
  {
    var s := Step(t);
    if s.1.Continue? {
      assert t.ip + 3 < |t.memory| && s.0.ip == t.ip + 4;
      RunEnds(s.0, fuel - 1);
    }
  }

  /** With more fuel than the program has cells, no attempt runs out, so
      the search never ends with `SearchOutOfFuel`: its outcomes are then
      exactly those of `main`, which has no budget. */
  lemma {:induction false} SearchNeverRunsOut(initial: seq<int>, fuel: nat)
    requires AllUsize(initial) && fuel > |initial|
    ensures SearchFrom(VerdictsOf(initial, fuel), 0, 0) != SearchOutOfFuel
  {
    var verdicts := VerdictsOf(initial, fuel);
    forall n: nat, v: nat | n <= 99 && v <= 99
      ensures verdicts(n, v) != Exhausted
    {
      if |initial| >= 3 {
        var t := Tape(initial[1 := n][2 := v], 0);
        assert AllUsize(t.memory);
        RunEnds(t, fuel);
      }
    }
    SearchStopsAtFirstStop(verdicts, 0, 0);
  }

  // ---------------------------------------------------------------------
  // The program, updated in place

  class Program {
    var initialProgram: seq<int>
    var memory: seq<int>
    var ip: nat

    ghost predicate Valid()
      reads this
    {
      && AllUsize(initialProgram) && AllUsize(memory)
      && |memory| == |initialProgram|
      && FitsVec(|memory|)
    }

    function State(): Tape
      reads this
    {
      Tape(memory, ip)
    }

    /** `Program::new` / `default`: empty vectors, pointer at 0. */
    constructor New()
      ensures Valid() && initialProgram == [] && memory == [] && ip == 0
    {
      initialProgram := [];
      memory := [];
      ip := 0;
    }

    /** `from_source`: a new program holding each comma-separated, trimmed
        `usize` token in order, in both vectors; the first bad token is
        returned as written. */
    static method FromSource(text: string) returns (r: Result<Program, ErrorKind>)
      requires FitsVec(|text| + 1)
      ensures r.Err? <==> ParseList(text, UsizeToken).Err?
      ensures r.Err? ==> r.error == ParseError(ParseList(text, UsizeToken).error)
      ensures r.Ok? ==> fresh(r.value) && r.value.Valid() && r.value.ip == 0
      ensures r.Ok? ==> r.value.memory == r.value.initialProgram && ParseList(text, UsizeToken) == Ok(r.value.memory)
    {
      var prog := new Program.New();
      var loaded := prog.AddTokens(Split(text, ','), UsizeToken);
      if loaded.Err? {
        return Err(loaded.error);
      }
      r := Ok(prog);
    }

    /** The loop of `from_source` on an empty program, for a token parser
        that accepts only `usize` values. */
    method AddTokens(tokens: seq<string>, parse: string -> Option<int>) returns (r: Result<(), ErrorKind>)
      requires Valid() && memory == [] && initialProgram == [] && ip == 0
      requires FitsVec(|tokens|)
      requires forall t :: parse(t).Some? ==> IsUsize(parse(t).value)
      modifies this
      ensures r.Err? <==> ParseTokens(tokens, parse).Err?
      ensures r.Err? ==> r.error == ParseError(ParseTokens(tokens, parse).error)
      ensures r.Ok? ==> Valid() && ip == 0 && memory == initialProgram && ParseTokens(tokens, parse) == Ok(memory)
    {
      var i := 0;
      while i < |tokens|
        invariant 0 <= i <= |tokens|
        invariant Valid() && ip == 0 && memory == initialProgram && |memory| == i
        invariant ParseTokens(tokens[..i], parse) == Ok(memory)
      {
        var v := parse(tokens[i]);
        ParseTokensExtend(tokens, parse, i, memory);
        if v.None? {
          return Err(ParseError(tokens[i]));
        }
        AddRawInstruction(v.value);
        i := i + 1;
      }
      assert tokens[..i] == tokens;
      r := Ok(());
    }

    /** `add_raw_instruction`: push onto both vectors. */
    method AddRawInstruction(instruction: int)
      requires Valid() && IsUsize(instruction) && FitsVec(|memory| + 1)
      modifies this
      ensures Valid() && ip == old(ip)
      ensures memory == old(memory) + [instruction]
      ensures initialProgram == old(initialProgram) + [instruction]
    {
      initialProgram := initialProgram + [instruction];
      memory := memory + [instruction];
    }

    /** `reset`: copy the program over memory and rewind the pointer. */
    method Reset()
      requires Valid()
      modifies this
      ensures Valid() && memory == initialProgram && ip == 0
      ensures initialProgram == old(initialProgram)
    {
      var i := 0;
      while i < |memory|
        invariant 0 <= i <= |memory| == |initialProgram|
        invariant initialProgram == old(initialProgram) && AllUsize(memory)
        invariant forall k :: 0 <= k < i ==> memory[k] == initialProgram[k]
      {
        memory := memory[i := initialProgram[i]];
        i := i + 1;
      }
      ip := 0;
    }

    /** `load`: `memory[idx]`, which panics outside memory. */
    function Load(idx: nat): (r: int)
      requires Valid() && idx < |memory|
      reads this
      ensures IsUsize(r) && r == memory[idx]
    {
      memory[idx]
    }

    /** `*load_mut(idx) = value`. */
    method Store(idx: nat, value: int)
      requires Valid() && idx < |memory| && IsUsize(value)
      modifies this
      ensures Valid() && memory == old(memory)[idx := value]
      ensures ip == old(ip) && initialProgram == old(initialProgram)
    {
      memory := memory[idx := value];
    }

    /** `advance`. */
    method Advance(amount: nat)
      modifies this
      ensures ip == old(ip) + amount
      ensures memory == old(memory) && initialProgram == old(initialProgram)
    {
      ip := ip + amount;
    }

    /** One turn of the `eval` loop, in place. */
    method Execute() returns (s: Status)
      requires Valid()
      modifies this
      ensures Valid() && initialProgram == old(initialProgram)
      ensures (State(), s) == Step(old(State()))
    {
      if ip >= |memory| {
        return Crash(SliceIndexOutOfRange);
      }
      var code := Load(ip);
      if code == 1 || code == 2 {
        var left := Operand(memory, ip + 1);
        var right := Operand(memory, ip + 2);
        if left.None? || right.None? {
          return Crash(SliceIndexOutOfRange);
        }
        var v := if code == 1 then left.value + right.value else left.value * right.value;
        if !IsUsize(v) {
          return Crash(ArithmeticOverflow);
        }
        if ip + 3 >= |memory| || !(0 <= memory[ip + 3] < |memory|) {
          return Crash(SliceIndexOutOfRange);
        }
        Store(Load(ip + 3), v);
        Advance(4);
        s := Continue;
      } else if code == 99 {
        s := Halt;
      } else {
        s := Crash(UnknownOpcode(code));
      }
    }

    /** `eval`, given a budget of `fuel` turns. */
    method Eval(fuel: nat) returns (r: End)
      requires Valid()
      modifies this
      ensures Valid() && initialProgram == old(initialProgram)
      ensures (State(), r) == Run(old(State()), fuel)
    {
      var k := fuel;
      while true
        invariant Valid() && initialProgram == old(initialProgram)
        invariant Run(State(), k) == Run(old(State()), fuel)
        decreases k
      {
        if k == 0 {
          return OutOfFuel;
        }
        ghost var before := State();
        var s := Execute();
        assert (State(), s) == Step(before);
        match s {
          case Continue =>
          case Halt => return Halted;
          case Crash(p) => return Crashed(p);
        }
        k := k - 1;
      }
    }

    /** `dump`: every cell in decimal, separated by single commas. */
    method Dump() returns (s: string)
      ensures s == ShowList(memory)
    {
      s := "";
      var i := 0;
      while i < |memory|
        invariant 0 <= i <= |memory|
        invariant s == ShowList(memory[..i])
      {
        ShowListStep(memory, i);
        if i == 0 {
          s := Show(memory[i]);
        } else {
          s := s + "," + Show(memory[i]);
        }
        i := i + 1;
      }
      assert memory[..i] == memory;
    }

    /** `main`'s search: for each noun, then each verb, in 0..=99, reset,
        patch cells 1 and 2, evaluate, and stop at the first pair leaving
        the target in cell 0. */
    method Search(fuel: nat) returns (r: Answer)
      requires Valid()
      modifies this
      ensures Valid() && initialProgram == old(initialProgram)
      ensures r == SearchFrom(VerdictsOf(initialProgram, fuel), 0, 0)
      ensures fuel > |initialProgram| ==> r != SearchOutOfFuel
    {
      if fuel > |initialProgram| {
        SearchNeverRunsOut(initialProgram, fuel);
      }
      r := SearchNouns(VerdictsOf(initialProgram, fuel), fuel);
    }

    /** The outer loop of the search, over the nouns, for the verdicts of
        the program's attempts. */
    method SearchNouns(ghost verdicts: Verdicts, fuel: nat) returns (r: Answer)
      requires Valid() && Tabulates(verdicts, initialProgram, fuel)
      modifies this
      ensures Valid() && initialProgram == old(initialProgram)
      ensures r == SearchFrom(verdicts, 0, 0)
    {
      var noun := 0;
      while noun <= 99
        invariant 0 <= noun <= 100
        invariant Valid() && initialProgram == old(initialProgram)
        invariant SearchFrom(verdicts, noun, 0) == SearchFrom(verdicts, 0, 0)
      {
        r := SearchVerbs(verdicts, noun, fuel);
        if r != NotFound {
          return;
        }
        noun := noun + 1;
      }
      r := NotFound;
    }

    /** The inner loop of the search for one noun: a pair that does not miss
        ends the whole search; if every verb misses, the search goes on with
        the next noun. */
    method SearchVerbs(ghost verdicts: Verdicts, noun: nat, fuel: nat) returns (r: Answer)
      requires Valid() && noun <= 99 && Tabulates(verdicts, initialProgram, fuel)
      modifies this
      ensures Valid() && initialProgram == old(initialProgram)
      ensures SearchFrom(verdicts, noun, 0) == if r == NotFound then SearchFrom(verdicts, noun + 1, 0) else r
    {
      var verb := 0;
      r := NotFound;
      while verb <= 99
        invariant 0 <= verb <= 100
        invariant Valid() && initialProgram == old(initialProgram)
        invariant SearchFrom(verdicts, noun, verb) == SearchFrom(verdicts, noun, 0)
      {
        r := TryPair(noun, verb, fuel);
        assert verdicts(noun, verb) == Judge(Attempt(initialProgram, noun, verb, fuel));
        if r != NotFound {
          return;
        }
        verb := verb + 1;
      }
      r := NotFound;
    }

    /** One pass of the search's inner loop: reset, patch, evaluate, and
        judge cell 0. */
    method TryPair(noun: nat, verb: nat, fuel: nat) returns (r: Answer)
      requires Valid() && noun <= 99 && verb <= 99
      modifies this
      ensures Valid() && initialProgram == old(initialProgram)
      ensures r == Settle(Judge(Attempt(initialProgram, noun, verb, fuel)), noun, verb)
    {
      Reset();
      if |memory| < 3 {
        return SearchCrashed(SliceIndexOutOfRange);
      }
      Store(1, noun);
      Store(2, verb);
      assert State() == Tape(initialProgram[1 := noun][2 := verb], 0);
      var e := Eval(fuel);
      assert (State(), e) == Attempt(initialProgram, noun, verb, fuel);
      match e {
        case Halted =>
          if Load(0) == Target {
            r := Found(noun, verb);
          } else {
            r := NotFound;
          }
        case Crashed(p) => r := SearchCrashed(p);
        case OutOfFuel => r := SearchOutOfFuel;
      }
    }
  }
}
