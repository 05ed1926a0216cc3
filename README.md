# Advent of Code 2019 in Dafny: the Intcode machine and nine puzzle solutions

This project models DnMllr's Rust solutions to Advent of Code 2019 and proves
properties of the model. It covers two parts.

The first part is the Intcode interpreter shared by several puzzles:

- the module interpreter in `advent_common/src/intcode/`:
  - parameters;
  - opcode decoding with the place-value mode loop;
  - execution of each instruction;
  - the VM with its initial program, memory and `ip` register;
  - the program loader;
  - the fixed 256-cell memory;
  - the vector-backed port;
  - the `Executor` that turns a resumable machine into an iterator of outputs;
- the older interpreter in `advent_common/src/intcode.rs` (only add, multiply and halt are decoded).

The second part is the `main.rs` of nine puzzles:

- day 2: the `usize` tape machine and the noun/verb search;
- day 3: crossing wires, in both parts;
- day 4: password digit rules, counted over the puzzle range;
- day 6: the orbit map, total orbits and orbital transfers;
- day 8: the layered image checksum and its composition;
- day 10: asteroid slopes and the best monitoring station;
- day 11: the hull-painting robot;
- day 12: the moon simulation and its energy;
- day 13: the arcade cabinet's screen and block count.

## How the model is built

Each Rust struct whose methods update fields in place is a Dafny `class`. Examples are the VMs,
`Memory`, `VecPort`, `Executor`, day 2's `Program`, day 3's `PartOne`/`PartTwo`, day 4's
`NumSplitIter`, day 11's `Robot`, day 12's `System` and day 13's `Arcade`. Each class method states
its new state as a function of the old one, through a specification function on values
(`Exec`, `Run`, `SetSpec`, `Walked`, `StepSpec`, `Took`, ...). The lemmas state the puzzle-level
properties about those functions.

The model keeps the source's behaviour at the edges:

- **Errors.** Rust errors become `Result` values with the source's error kinds.
- **Panics.** Rust panics (slice indexing, `unwrap`, overflow in debug builds) become an explicit
  `Panicked` or `Crash` outcome, whenever the panicking value comes from input or memory.
- **Widths.** Integers are unbounded. The `i32`/`i64`/`usize` ranges are stated where the source
  relies on them, as `IsI32`, `IsI64` and `IsUsize`.
- **Loops that may not end.** Loops that run until the machine halts (`eval`, `run`, the robot and
  arcade loops) take a `fuel` bound and report `OutOfFuel` when it runs out.

## Model

| member | source | states |
|---|---|---|
| Common.I32AsUsize | advent_common/src/intcode/opcodes.rs:134 | `x as usize` keeps a non-negative `i32` and maps a negative one to at least 2^64 - 2^31 |
| Common.UpdateEach | day_3/src/main.rs:48-55 | mapping a function over a map's values keeps the key set and applies the function to every value |
| Text.TrimStart | advent_common/src/intcode/program.rs:25 | `trim` drops exactly the leading whitespace: the result is a suffix, every dropped character is whitespace and the result does not start with whitespace |
| Text.TrimEnd | advent_common/src/intcode/program.rs:25 | drops exactly the trailing whitespace (a prefix; dropped characters are whitespace; the result does not end with whitespace) |
| Text.TrimKeepsInnerText | advent_common/src/intcode/program.rs:25 | a string that neither starts nor ends with whitespace is unchanged by `trim` |
| Text.Split | advent_common/src/intcode/program.rs:23 | `split(',')` yields between 1 and \|s\|+1 pieces, none containing the separator |
| Text.JoinSnoc | advent_common/src/intcode/vm.rs:106-116 | joining with one more piece appends the separator and that piece |
| Text.JoinSplit | advent_common/src/intcode/program.rs:23 | joining the pieces of `split` with the separator gives back the original string |
| Text.SplitLeadingSep | advent_common/src/intcode/program.rs:23 | a leading separator splits off an empty first piece |
| Text.SplitLeadingChar | advent_common/src/intcode/program.rs:23 | a leading non-separator character starts the first piece |
| Text.JoinFirstChar | advent_common/src/intcode/vm.rs:106-116 | the first character of a join is the first character of its first piece |
| Text.FreeOfTail | advent_common/src/intcode/program.rs:23 | dropping a character from the first piece keeps all pieces free of the separator |
| Text.SplitJoin | advent_common/src/intcode/program.rs:23 | splitting a join of separator-free pieces gives back the pieces |
| Text.DigitChar | advent_common/src/intcode/vm.rs:113 | the digit character for d < 10 is a digit whose value is d |
| Text.ParseInt | advent_common/src/intcode/program.rs:25-27 | a successful `parse` lies in the target type's range and starts with a digit, `+`, or (signed types only) `-` |
| Text.ShowNat | advent_common/src/intcode/vm.rs:113 | the decimal text of n is non-empty, all digits, denotes n and has no leading zero |
| Text.Show | advent_common/src/intcode/vm.rs:113 | `{}` formatting of an integer is non-empty digits with an optional leading minus |
| Text.ShowParses | advent_common/src/intcode/program.rs:25-27 | parsing the formatted text of n (in range) gives back n, and the text is already trimmed |
| Text.I32Token | advent_common/src/intcode/program.rs:25-27 | a token accepted as `i32` is in the `i32` range |
| Text.ParseTokens | advent_common/src/intcode/program.rs:21-32 | parsing a token list succeeds iff every token parses, and then yields each token's value in order |
| Text.ParseTokensAll | advent_common/src/intcode/program.rs:21-32 | tokens that each parse to the given values yield exactly those values |
| Text.ParseTokensFirstBad | advent_common/src/intcode/program.rs:27 | the error carries the first token that fails to parse |
| Text.ParseTokensExtend | advent_common/src/intcode/program.rs:23-29 | one more token either extends the parsed prefix by its value or fails with that token |
| Text.ShowAll | advent_common/src/intcode/vm.rs:109-114 | formats each value in order |
| Text.ShowListSnoc | advent_common/src/intcode/vm.rs:109-114 | the dump of one more value appends a comma and that value's text |
| Text.ShowListSplits | advent_common/src/intcode/vm.rs:106-116 | splitting a dump at commas yields each value's text |
| Text.ShowI32Parses | advent_common/src/intcode/program.rs:25-27 | an `i32` formatted and parsed back is itself |
| Text.ShowAllParses | advent_common/src/intcode/program.rs:21-32 | values whose texts parse back are recovered by parsing their formatted list |
| Text.ShowListParses | advent_common/src/intcode/program.rs:21-32 | parsing a dump gives back the values (dump then load round trip) |
| Text.ShowI32ListParses | advent_common/src/intcode/vm.rs:106-116 | a dumped `i32` memory parses back to the same memory |
| IntcodeParameters.New | advent_common/src/intcode/parameters.rs:13-28 | a parameter is built from the word at idx with the requested mode; a missing word is `MemoryError(OpCodeLength)` |
| IntcodeParameters.Read | advent_common/src/intcode/parameters.rs:29-37 | an immediate parameter reads its own value; a reference reads memory at its address iff in bounds, else `MemoryError(ReferenceParameter)` |
| IntcodeParameters.ReadMut | advent_common/src/intcode/parameters.rs:38-45 | an immediate output parameter is `ImmediateModeOutputError`; a reference gives its address iff in bounds |
| IntcodeParameters.WriteThenRead | advent_common/src/intcode/parameters.rs:29-45 | a writable parameter is readable, and after writing v at its address it reads v |
| IntcodeParameters.NewBinary | advent_common/src/intcode/parameters.rs:56-62 | three parameters from words 1..3 with mode bits 4, 2 and 1; fewer than four words is `OpCodeLength` |
| IntcodeParameters.NewUnary | advent_common/src/intcode/parameters.rs:71-75 | one parameter from word 1 with mode bit 4; fewer than two words is `OpCodeLength` |
| IntcodeParameters.NewCondition | advent_common/src/intcode/parameters.rs:85-90 | test and location from words 1 and 2 with mode bits 4 and 2; fewer than three words is `OpCodeLength` |
| IntcodeOpcodes.Len | advent_common/src/intcode/opcodes.rs:24-32 | every instruction is 1 to 4 words long |
| IntcodeOpcodes.Dispatch | advent_common/src/intcode/opcodes.rs:47-73 | an unknown residual code is `UnknownOpcodeError(code)`; a known one succeeds iff enough words follow, with the code's length |
| IntcodeOpcodes.Decode | advent_common/src/intcode/opcodes.rs:33-77 | an empty slice is `OpCodeLength`; a decoded instruction fits in the slice |
| IntcodeOpcodes.DispatchOperands | advent_common/src/intcode/parameters.rs:56-90 | operand i carries word i+1 and the mode bit for its position |
| IntcodeOpcodes.BinaryOperands | advent_common/src/intcode/parameters.rs:56-62 | the three operands of add/mul/less-than/equals carry words 1..3 with their mode bits |
| IntcodeOpcodes.DecodeSpec | advent_common/src/intcode/opcodes.rs:33-77 | decoding succeeds iff the residual code is known and enough words follow; a negative word is rejected as itself; operands carry the following words with the place-value modes |
| IntcodeOpcodes.ModeMaskDigits | advent_common/src/intcode/opcodes.rs:37-46 | for a non-negative word the mode bits are exactly "hundreds digit is 1", "thousands digit is 1" and "ten-thousands count is 1"; a negative word has no modes |
| IntcodeOpcodes.PlaceLoop0 | advent_common/src/intcode/opcodes.rs:38-42 | the repeated subtraction of 10000 ends with the quotient and remainder |
| IntcodeOpcodes.PlaceLoop1 | advent_common/src/intcode/opcodes.rs:38-42 | the subtraction of 1000 yields the thousands digit and the remainder mod 1000 |
| IntcodeOpcodes.PlaceLoop2 | advent_common/src/intcode/opcodes.rs:38-42 | the subtraction of 100 yields the hundreds digit and the remainder mod 100 |
| IntcodeOpcodes.PlaceLoopResult | advent_common/src/intcode/opcodes.rs:37-46 | each pass of the place loop leaves the next residual and that place's count |
| IntcodeOpcodes.StripPlace | advent_common/src/intcode/opcodes.rs:38-42 | one place loop leaves the next residual and counts how often the place fits (the mode digit, or the whole quotient for 10000) |
| IntcodeOpcodes.Parse | advent_common/src/intcode/opcodes.rs:33-77 | the loop-based `parse` computes `Decode` |
| IntcodeOpcodes.WriteOut | advent_common/src/intcode/opcodes.rs:110 | storing through an output parameter changes at most one cell and leaves the input stream alone |
| IntcodeOpcodes.ExecBinary | advent_common/src/intcode/opcodes.rs:109-131 | add/mul/compare keep memory length and `i32` cells and leave the input alone |
| IntcodeOpcodes.ExecJump | advent_common/src/intcode/opcodes.rs:132-143 | a jump never changes memory or the input |
| IntcodeOpcodes.ExecInput | advent_common/src/intcode/opcodes.rs:115-118 | input consumes exactly one line |
| IntcodeOpcodes.ExecOutput | advent_common/src/intcode/opcodes.rs:119-121 | output leaves the input alone |
| IntcodeOpcodes.Exec | advent_common/src/intcode/opcodes.rs:107-148 | memory keeps its length and `i32` cells; an error changes nothing; the result is `true` exactly for exit, which changes nothing; only input touches the input stream |
| IntcodeOpcodes.ExecBinaryStores | advent_common/src/intcode/opcodes.rs:109-131 | a successful binary op stores the combined operands at the output address and advances by 4 |
| IntcodeOpcodes.ExecJumpMoves | advent_common/src/intcode/opcodes.rs:132-146 | a taken jump sets ip to the location cast to `usize`; an untaken one advances by 3; memory is unchanged |
| IntcodeOpcodes.ExecIo | advent_common/src/intcode/opcodes.rs:100-121 | input stores the trimmed, parsed next line at its address and advances by 2; output appends the read value and advances by 2 |
| IntcodeOpcodes.DecodeWellFormed | advent_common/src/intcode/opcodes.rs:33-77 | every instruction decoded from `i32` memory is well formed |
| IntcodeVm.Fetch | advent_common/src/intcode/vm.rs:83-85 | ip past the end panics; ip at the end is `OpCodeLength`; a fetched instruction fits in memory |
| IntcodeVm.Step | advent_common/src/intcode/vm.rs:96-103 | one step keeps the memory length and `i32` cells; the exit step changes nothing |
| IntcodeVm.Run | advent_common/src/intcode/vm.rs:96-104 | `eval` returns cell 0 of the final memory when the program exits |
| IntcodeVm.Resume | advent_common/src/intcode/vm.rs:96-104 | continuing after one step keeps the memory shape and returns cell 0 on exit |
| IntcodeVm.RunMonotone | advent_common/src/intcode/vm.rs:96-104 | once a run finishes within some fuel, more fuel gives the same result |
| IntcodeVm.ResumeMonotone | advent_common/src/intcode/vm.rs:96-104 | the same for the continuation after a step |
| IntcodeVm.AddExample | advent_common/src/intcode/vm.rs:96-104 | 1,0,0,0,99 becomes 2,0,0,0,99 and returns 2 |
| IntcodeVm.ImmediateModeExample | advent_common/src/intcode/opcodes.rs:33-46 | 1002,4,3,4,33 multiplies by the immediate 3 and halts |
| IntcodeVm.EqualsEightInput | advent_common/src/intcode/opcodes.rs:115-118 | the equals-8 program stores the input 8 at cell 9 |
| IntcodeVm.EqualsEightCompare | advent_common/src/intcode/opcodes.rs:125-131 | it then compares cell 9 with 8 and stores 1 |
| IntcodeVm.EqualsEightOutput | advent_common/src/intcode/opcodes.rs:119-121 | it then outputs 1 |
| IntcodeVm.EqualsEightExit | advent_common/src/intcode/opcodes.rs:144 | it then exits without change |
| IntcodeVm.RunAfterStep | advent_common/src/intcode/vm.rs:96-103 | running after a non-final step is running the stepped machine with one less fuel |
| IntcodeVm.EqualsEightExample | advent_common/src/intcode/vm.rs:96-104 | fed "8", the equals-8 program outputs 1 and returns cell 0 |
| IntcodeVm.VM.WithIo | advent_common/src/intcode/vm.rs:29-38 | a new VM has empty program and memory, ip 0 and the given streams |
| IntcodeVm.VM.AddRawInstruction | advent_common/src/intcode/vm.rs:57-62 | pushes the word onto both the initial program and memory |
| IntcodeVm.VM.Reset | advent_common/src/intcode/vm.rs:63-70 | copies the initial program over the zipped prefix of memory, keeps the rest, sets ip to 0 |
| IntcodeVm.VM.ReadSource | advent_common/src/intcode/vm.rs:39-56 | the result is the parse of the comma-separated text; on success memory and program both hold the parsed words and ip is 0 |
| IntcodeVm.VM.LoadTokens | advent_common/src/intcode/vm.rs:40-53 | clears, resets and pushes each parsed token in order, stopping at the first bad one |
| IntcodeVm.VM.Load | advent_common/src/intcode/vm.rs:75-78 | `memory.get(idx)`: the cell iff in bounds |
| IntcodeVm.VM.LoadMut | advent_common/src/intcode/vm.rs:79-82 | `get_mut(idx as usize)`: the address iff in bounds |
| IntcodeVm.VM.LoadInst | advent_common/src/intcode/vm.rs:83-86 | decodes at ip as `Fetch` does |
| IntcodeVm.VM.Advance | advent_common/src/intcode/vm.rs:87-90 | adds the amount to ip and changes nothing else |
| IntcodeVm.VM.JumpTo | advent_common/src/intcode/vm.rs:91-95 | sets ip and changes nothing else |
| IntcodeVm.VM.Store | advent_common/src/intcode/parameters.rs:38-45 | writing through a mutable reference updates one cell |
| IntcodeVm.VM.Exec | advent_common/src/intcode/opcodes.rs:107-148 | executes an instruction in place exactly as `Exec` specifies |
| IntcodeVm.VM.ArithmeticArm | advent_common/src/intcode/opcodes.rs:109-131 | the add/mul/compare arms in place |
| IntcodeVm.VM.InputArm | advent_common/src/intcode/opcodes.rs:115-118 | the input arm in place |
| IntcodeVm.VM.OutputArm | advent_common/src/intcode/opcodes.rs:119-121 | the output arm in place |
| IntcodeVm.VM.JumpArm | advent_common/src/intcode/opcodes.rs:132-143 | the jump arms in place |
| IntcodeVm.VM.Eval | advent_common/src/intcode/vm.rs:96-105 | the fetch/exec loop ends in the state and result of `Run` |
| IntcodeVm.VM.Dump | advent_common/src/intcode/vm.rs:106-116 | memory written as comma-separated decimals; empty memory gives "" |
| IntcodeProgram.FromSource | advent_common/src/intcode/program.rs:21-32 | the program is the parse of the comma-separated text, or the first bad token |
| IntcodeProgram.CollectWords | advent_common/src/intcode/program.rs:22-30 | the push loop builds the parse of the tokens |
| IntcodeProgram.FromReader | advent_common/src/intcode/program.rs:13-20 | reading all text then `from_source` |
| IntcodeProgram.ParsedProgramShape | advent_common/src/intcode/program.rs:21-32 | a parsed program has at least one word and all words are `i32` |
| IntcodeProgram.Load | advent_common/src/intcode/program.rs:33-36 | a copy of the words |
| IntcodeProgram.LoadTo | advent_common/src/intcode/program.rs:37-44 | pads the vector with zeros up to the program's length, overwrites the prefix with the program, keeps any longer tail |
| IntcodeProgram.LoadToShortVector | advent_common/src/intcode/program.rs:37-44 | into a vector no longer than the program, `load_to` yields exactly the program |
| IntcodeMemory.Memory.Cells | advent_common/src/intcode/memory.rs:21-23 | 256 cells, each an `i64` |
| IntcodeMemory.Memory.New | advent_common/src/intcode/memory.rs:8-13 | a fresh memory is 256 zeros |
| IntcodeMemory.Memory.Zero | advent_common/src/intcode/memory.rs:14-20 | zeroes every cell |
| IntcodeMemory.Memory.Load | advent_common/src/intcode/memory.rs:39-42 | the cell iff idx < 256 |
| IntcodeMemory.Memory.LoadMut | advent_common/src/intcode/memory.rs:43-45 | the address iff idx < 256 |
| IntcodeMemory.Memory.Set | advent_common/src/intcode/memory.rs:43-45 | a write through `load_mut` updates exactly that cell |
| IntcodePorts.Pushed | advent_common/src/intcode/ports.rs:85-89 | `input` appends to the input queue |
| IntcodePorts.Read | advent_common/src/intcode/ports.rs:61-67 | `read_int` pops the front iff the queue is non-empty, else `OutOfStaticInputError` with nothing changed |
| IntcodePorts.Written | advent_common/src/intcode/ports.rs:71-74 | `write_int` appends to the output |
| IntcodePorts.ReadMany | advent_common/src/intcode/ports.rs:61-67 | n reads give n results |
| IntcodePorts.ReadsInOrder | advent_common/src/intcode/ports.rs:61-67 | values are read back first in, first out |
| IntcodePorts.FedValuesReadBack | advent_common/src/intcode/ports.rs:61-89 | a value pushed with `input` is read after the queued ones, and then the queue is empty |
| IntcodePorts.ExhaustedStaysExhausted | advent_common/src/intcode/ports.rs:61-67 | reading an empty queue always fails and changes nothing |
| IntcodePorts.VecPort.State | advent_common/src/intcode/ports.rs:54-57 | the port's two queues |
| IntcodePorts.VecPort.New | advent_common/src/intcode/ports.rs:78-84 | empty queues |
| IntcodePorts.VecPort.Input | advent_common/src/intcode/ports.rs:85-89 | as `Pushed` |
| IntcodePorts.VecPort.ReadInt | advent_common/src/intcode/ports.rs:61-67 | as `Read`; a value read is an `i32` |
| IntcodePorts.VecPort.WriteInt | advent_common/src/intcode/ports.rs:71-74 | as `Written`; never fails |
| IntcodePorts.VecPort.IntoOutput | advent_common/src/intcode/ports.rs:90-93 | the output queue, all `i32` |
| IntcodeExecutor.Feeds | advent_common/src/intcode/mod.rs:62-66 | one input call per value fed |
| IntcodeExecutor.Handled | advent_common/src/intcode/mod.rs:52-70 | an `Ok` item is appended to the port's output and nothing else is written |
| IntcodeExecutor.HandledFeedsInOrder | advent_common/src/intcode/mod.rs:62-66 | `on_exit` feeds a prefix of the port's input to the machine in order, as input calls |
| IntcodeExecutor.FeedsStep | advent_common/src/intcode/mod.rs:62-66 | feeding the first value and then the rest is feeding the prefix |
| IntcodeExecutor.PullRunsOnce | advent_common/src/intcode/mod.rs:76-79 | `next` runs the machine once, then feeds a prefix of the input |
| IntcodeExecutor.Pulls | advent_common/src/intcode/mod.rs:73-80 | n pulls give n items |
| IntcodeExecutor.OkValues | advent_common/src/intcode/mod.rs:73-80 | the successful values among the items |
| IntcodeExecutor.YieldedValuesAreOutput | advent_common/src/intcode/mod.rs:52-79 | the values an executor yields are exactly what it appended to the port's output |
| IntcodeExecutor.ResumableVm.New | advent_common/src/intcode/mod.rs:28-31 | a machine with no calls yet |
| IntcodeExecutor.ResumableVm.Run | advent_common/src/intcode/mod.rs:28-31 | `run` records the call and returns the machine's status for the history |
| IntcodeExecutor.ResumableVm.RunWithInput | advent_common/src/intcode/mod.rs:28-31 | `run_with_input` records the input and returns the status |
| IntcodeExecutor.Executor.Run | advent_common/src/intcode/mod.rs:86-89 | wraps the given machine and port |
| IntcodeExecutor.Executor.Port | advent_common/src/intcode/mod.rs:90-96 | the wrapped port |
| IntcodeExecutor.Executor.Vm | advent_common/src/intcode/mod.rs:97-102 | the wrapped machine |
| IntcodeExecutor.Executor.Next | advent_common/src/intcode/mod.rs:76-79 | the item, machine history and port after `next` are those of `Pulled` |
| IntcodeExecutor.Executor.OnExit | advent_common/src/intcode/mod.rs:52-70 | exit yields its error or ends; output is written and yielded; an input request reads the port and resumes, or yields the read error |
| LegacyIntcode.Len | advent_common/src/intcode.rs:104-120 | add/mul 4 words, input/output 2, exit 1 |
| LegacyIntcode.Modes | advent_common/src/intcode.rs:122-132 | the three place-value mode flags |
| LegacyIntcode.Decode | advent_common/src/intcode.rs:121-151 | an empty slice is `OpCodeLength`; only add, mul and exit decode; the instruction fits |
| LegacyIntcode.DecodeSpec | advent_common/src/intcode.rs:121-151 | decodes iff code 99, or code 1/2 with four words; other codes are `UnknownOpcodeError`; operands take words 1..3 with modes from places 2, 1, 0 |
| LegacyIntcode.Parse | advent_common/src/intcode.rs:121-151 | the loop-based `parse` computes `Decode` |
| LegacyIntcode.ReadOperand | advent_common/src/intcode.rs:65-71 | immediate gives its value; a reference indexes memory and panics out of bounds |
| LegacyIntcode.ReadOperandMut | advent_common/src/intcode.rs:72-77 | immediate is `ImmediateModeOutputError`; a reference gives its address or panics |
| LegacyIntcode.Perform | advent_common/src/intcode.rs:152-175 | keeps memory shape and `i32` cells; an error changes nothing; `true` exactly for exit; only add/mul move ip |
| LegacyIntcode.ExecArithmeticStores | advent_common/src/intcode.rs:154-161 | a successful add/mul stores the sum/product at the output address and advances by 4 |
| LegacyIntcode.Fetch | advent_common/src/intcode.rs:275-278 | ip past the end panics, at the end is `OpCodeLength`; a fetched instruction fits |
| LegacyIntcode.Step | advent_common/src/intcode.rs:284-291 | keeps memory shape; exit changes nothing |
| LegacyIntcode.Run | advent_common/src/intcode.rs:284-291 | returns cell 0 of the final memory on exit |
| LegacyIntcode.Resume | advent_common/src/intcode.rs:284-291 | the same for the continuation after a step |
| LegacyIntcode.RunKeepsStreams | advent_common/src/intcode.rs:152-175 | since input and output never advance ip, a run that finishes has not touched the streams |
| LegacyIntcode.SampleAdd | advent_common/src/intcode.rs:154-157 | the sample program first stores 70 at cell 3 |
| LegacyIntcode.SampleMul | advent_common/src/intcode.rs:158-161 | then stores 3500 at cell 0 |
| LegacyIntcode.SampleExit | advent_common/src/intcode.rs:172 | then exits |
| LegacyIntcode.SampleRun | advent_common/src/intcode.rs:284-291 | the sample returns 3500 |
| LegacyIntcode.VM.WithIo | advent_common/src/intcode.rs:197-206 | empty program and memory, ip 0, the given streams |
| LegacyIntcode.VM.AddRawInstruction | advent_common/src/intcode.rs:225-230 | pushes onto program and memory |
| LegacyIntcode.VM.Reset | advent_common/src/intcode.rs:231-238 | copies the program over memory's zipped prefix and sets ip to 0 |
| LegacyIntcode.VM.ReadSource | advent_common/src/intcode.rs:207-224 | loads the parse of the text, or fails with the first bad token |
| LegacyIntcode.VM.LoadTokens | advent_common/src/intcode.rs:208-221 | clears, resets, pushes parsed tokens in order |
| LegacyIntcode.VM.Load | advent_common/src/intcode.rs:243-246 | the cell at an in-bounds index |
| LegacyIntcode.VM.LoadInst | advent_common/src/intcode.rs:275-278 | decodes at ip as `Fetch` |
| LegacyIntcode.VM.Advance | advent_common/src/intcode.rs:279-283 | adds to ip only |
| LegacyIntcode.VM.Exec | advent_common/src/intcode.rs:152-175 | executes in place as `Perform` |
| LegacyIntcode.VM.ArithmeticArm | advent_common/src/intcode.rs:154-161 | add/mul arms in place |
| LegacyIntcode.VM.InputArm | advent_common/src/intcode.rs:162-169 | input arm in place |
| LegacyIntcode.VM.OutputArm | advent_common/src/intcode.rs:170-171 | output arm in place |
| LegacyIntcode.VM.Eval | advent_common/src/intcode.rs:284-291 | the loop ends in the state and result of `Run` |
| LegacyIntcode.VM.Dump | advent_common/src/intcode.rs:292-304 | comma-separated decimals of memory |
| Day2.UsizeToken | day_2/src/main.rs:36-44 | an accepted token is a `usize` |
| Day2.DumpReadsBack | day_2/src/main.rs:129-141 | a dumped tape parses back to itself |
| Day2.Operand | day_2/src/main.rs:70-93 | an operand is `memory[memory[at]]` iff both indices are in bounds |
| Day2.Step | day_2/src/main.rs:107-128 | one step keeps the tape length; halting or crashing leaves the tape as it was |
| Day2.StepStops | day_2/src/main.rs:107-128 | halts exactly on 99; ip past the end or an opcode other than 1, 2, 99 crashes |
| Day2.StepStores | day_2/src/main.rs:107-128 | a continuing step stores the sum (1) or product (2) of the referenced cells at the output address and advances by 4 |
| Day2.Run | day_2/src/main.rs:107-128 | a halted run stops on a 99 |
| Day2.RunEnds | day_2/src/main.rs:107-128 | `eval` always ends: with more fuel than the cells ahead of the instruction pointer, a run halts or panics and never runs out |
| Day2.AddExample | day_2/src/main.rs:107-128 | 1,0,0,0,99 becomes 2,0,0,0,99 |
| Day2.SampleExample | day_2/src/main.rs:107-128 | the sample becomes 3500,9,10,70,... |
| Day2.SampleAddStep | day_2/src/main.rs:107-128 | first step of the sample |
| Day2.SampleMulStep | day_2/src/main.rs:107-128 | second step of the sample |
| Day2.Reported | day_2/src/main.rs:165 | 100 * noun + verb encodes noun and verb |
| Day2.Attempt | day_2/src/main.rs:158-163 | a halted attempt ran a tape of the program's length, at least 3 |
| Day2.Judge | day_2/src/main.rs:164-166 | a hit iff halted with 19690720 in cell 0; a miss iff halted with something else |
| Day2.Settle | day_2/src/main.rs:156-168 | a miss continues the search; a hit reports the pair |
| Day2.SearchFindsFirstHit | day_2/src/main.rs:156-168 | a found pair is a hit and every earlier pair (noun-major) missed |
| Day2.SearchNotFoundIffAllMiss | day_2/src/main.rs:156-170 | nothing is found iff every pair missed |
| Day2.SearchStopsAtFirstStop | day_2/src/main.rs:156-168 | a crash or exhaustion is that of the first pair that did not miss |
| Day2.Program.New | day_2/src/main.rs:28-31 | empty program, ip 0 |
| Day2.Program.FromSource | day_2/src/main.rs:32-47 | the parse of the text, or the first bad token |
| Day2.Program.AddTokens | day_2/src/main.rs:36-45 | pushes each parsed token, stopping at the first bad one |
| Day2.Program.AddRawInstruction | day_2/src/main.rs:48-53 | pushes onto program and memory |
| Day2.Program.Reset | day_2/src/main.rs:54-61 | memory equals the program again; ip 0 |
| Day2.Program.Load | day_2/src/main.rs:66-69 | the cell, a `usize` |
| Day2.Program.Store | day_2/src/main.rs:94-97 | updates one cell |
| Day2.Program.Advance | day_2/src/main.rs:102-106 | adds to ip only |
| Day2.Program.Execute | day_2/src/main.rs:107-128 | one loop iteration as `Step` |
| Day2.Program.Eval | day_2/src/main.rs:107-128 | the loop as `Run` |
| Day2.Program.Dump | day_2/src/main.rs:129-141 | comma-separated decimals of memory |
| Day2.SearchNeverRunsOut | day_2/src/main.rs:154-171 | with more fuel than the program has cells, the search never ends for lack of fuel |
| Day2.Program.Search | day_2/src/main.rs:154-171 | the nested loops return the noun-major search result over all pairs, and never `SearchOutOfFuel` when the fuel exceeds the program's length |
| Day2.Program.SearchNouns | day_2/src/main.rs:156-170 | the outer loop over the nouns returns the noun-major search result from the first noun on |
| Day2.Program.SearchVerbs | day_2/src/main.rs:157-169 | the inner loop ends the search at a pair that does not miss, or passes on to the next noun |
| Day2.Program.TryPair | day_2/src/main.rs:158-166 | reset, patch cells 1 and 2, evaluate and judge |
| Day3.Recorded | day_3/src/main.rs:86-98 | `entry(k).or_insert_with(Vec::new).push(seg)` appends to k's list only |
| Day3.ScanForIntersections | day_3/src/main.rs:70-73 | exactly the segments containing coord |
| Day3.PushedHit | day_3/src/main.rs:64-68 | appends the hit unless it is at the origin |
| Day3.HitFor | day_3/src/main.rs:121-142 | the hit's cost is its Manhattan distance |
| Day3.Crossings | day_3/src/main.rs:119-143 | keeps earlier hits and adds only non-origin hits costed by Manhattan distance |
| Day3.ScanFinds | day_3/src/main.rs:122-129 | some segment of line k contains the coordinate iff the wires cross there |
| Day3.CrossingsExactly | day_3/src/main.rs:119-143 | the new hits are exactly the crossings found along the move |
| Day3.CrossingsSound | day_3/src/main.rs:119-143 | every new hit is a crossing |
| Day3.CrossingsComplete | day_3/src/main.rs:119-143 | every crossing is recorded |
| Day3.CrossingsGrow | day_3/src/main.rs:121-131 | one more step of the range adds at most its crossing |
| Day3.Insert | day_3/src/main.rs:50-55 | insertion keeps the multiset |
| Day3.InsertSorted | day_3/src/main.rs:50-55 | insertion keeps a list sorted |
| Day3.SortSegments | day_3/src/main.rs:50-55 | `sort`: sorted and a permutation |
| Day3.SortedLines | day_3/src/main.rs:50-55 | every list sorted, keys unchanged |
| Day3.SortingKeepsCrossings | day_3/src/main.rs:48-57 | sorting does not change which lines cross a coordinate |
| Day3.SetSpec | day_3/src/main.rs:100-150 | moves the position; input mode records, intersection mode only appends hits |
| Day3.SetKeepsRecordable | day_3/src/main.rs:100-150 | every recorded hit stays off the origin and costed by distance |
| Day3.SetRecordsRun | day_3/src/main.rs:109-118 | in input mode the move's segment is appended to its row or column list only |
| Day3.LineOneSpec | day_3/src/main.rs:48-57 | switches to intersections, returns to the origin, keeps hits and keys |
| Day3.LineKeepsCrossings | day_3/src/main.rs:48-57 | crossings found after sorting equal those before |
| Day3.SortAll | day_3/src/main.rs:50-55 | sorts every list |
| Day3.PartOne.New | day_3/src/main.rs:76-85 | the start state |
| Day3.PartOne.Horiz | day_3/src/main.rs:86-92 | records a horizontal segment |
| Day3.PartOne.Vert | day_3/src/main.rs:93-98 | records a vertical segment |
| Day3.PartOne.Set | day_3/src/main.rs:100-150 | as `SetSpec` |
| Day3.PartOne.Check | day_3/src/main.rs:119-143 | the scanning loop as `Crossings` |
| Day3.PartOne.Left | day_3/src/main.rs:32-34 | `set(-spaces, 0)` |
| Day3.PartOne.Right | day_3/src/main.rs:36-38 | `set(spaces, 0)` |
| Day3.PartOne.Up | day_3/src/main.rs:40-42 | `set(0, spaces)` |
| Day3.PartOne.Down | day_3/src/main.rs:44-46 | `set(0, -spaces)` |
| Day3.PartOne.Line | day_3/src/main.rs:48-57 | as `LineOneSpec` |
| Day3.PartOne.IntoAnswer | day_3/src/main.rs:59-61 | the hits |
| Day3.Marked | day_3/src/main.rs:175-189 | cost grows by one; position and mode kept |
| Day3.MarkKeepsFirstVisit | day_3/src/main.rs:178-180 | in input mode a cell keeps its first cost |
| Day3.MarkRecordsCrossing | day_3/src/main.rs:181-186 | in intersection mode a visited cell records its summed cost |
| Day3.AlongIsScaled | day_3/src/main.rs:196-226 | i unit steps move i times the direction |
| Day3.WalkedMoves | day_3/src/main.rs:196-226 | a walk of n moves n steps and costs n; a non-positive n does nothing |
| Day3.WalkedKeepsCosts | day_3/src/main.rs:178-180 | input-mode walks never change an existing cell's cost |
| Day3.WalkedStoresVisits | day_3/src/main.rs:196-226 | every cell stepped on is stored |
| Day3.AdvanceStores | day_3/src/main.rs:175-180 | one input step stores the new cell once |
| Day3.WalkedKeepsCells | day_3/src/main.rs:181-186 | intersection-mode walks keep the cells and the earlier hits |
| Day3.WalkedRecordsCrossings | day_3/src/main.rs:181-186 | each new hit is a first-wire cell whose second-wire cost lies within the walk |
| Day3.AdvanceRecordsFrom | day_3/src/main.rs:181-186 | one more turn keeps each hit recorded since the move began within the costs it has reached |
| Day3.AdvanceRecords | day_3/src/main.rs:181-186 | one intersection step adds at most one hit |
| Day3.LineTwoSpec | day_3/src/main.rs:228-232 | origin, cost 0, intersection mode |
| Day3.PartTwo.New | day_3/src/main.rs:165-174 | the start state |
| Day3.PartTwo.Mark | day_3/src/main.rs:175-189 | as `Marked` |
| Day3.PartTwo.Step | day_3/src/main.rs:190-192 | cost plus one |
| Day3.PartTwo.Walk | day_3/src/main.rs:196-226 | the counted loop as `Walked` |
| Day3.PartTwo.Left | day_3/src/main.rs:196-202 | walk left |
| Day3.PartTwo.Right | day_3/src/main.rs:204-210 | walk right |
| Day3.PartTwo.Up | day_3/src/main.rs:212-218 | walk up |
| Day3.PartTwo.Down | day_3/src/main.rs:220-226 | walk down |
| Day3.PartTwo.Line | day_3/src/main.rs:228-232 | as `LineTwoSpec` |
| Day3.PartTwo.IntoAnswer | day_3/src/main.rs:234-236 | the hits |
| Day3.DirectionOf | day_3/src/main.rs:244-250 | exactly the letters R, L, D, U name a direction |
| Day3.ReadInstruction | day_3/src/main.rs:242-243 | an instruction is its letter followed by an `i32`; empty and bad amounts are errors |
| Day3.InstructionReadsBack | day_3/src/main.rs:242-250 | a written instruction reads back |
| Day3.ReadWire | day_3/src/main.rs:241-251 | every instruction of a line, in order |
| Day3.ReadWires | day_3/src/main.rs:240-253 | every line's wire, in order |
| Day3.MinCost | day_3/src/main.rs:254-263 | the least cost among the hits, or "no answer" iff there are none |
| Day3.PartOneHitsRecordable | day_3/src/main.rs:239-253 | every part-one hit is off the origin and costed by distance |
| Day3.MovesKeepRecordable | day_3/src/main.rs:240-251 | each move keeps that |
| Day3.RunOneAnswer | day_3/src/main.rs:239-264 | a read error is passed on; otherwise part one answers iff it recorded a crossing, and the answer is the Manhattan distance of a recorded crossing off the origin with no recorded crossing closer |
| Day3.ApplyOne | day_3/src/main.rs:244-250 | one part-one instruction |
| Day3.ApplyTwo | day_3/src/main.rs:244-250 | one part-two instruction |
| Day3.WireOne | day_3/src/main.rs:241-252 | one line, then `line` |
| Day3.WireTwo | day_3/src/main.rs:241-252 | the same for part two |
| Day3.DrawOne | day_3/src/main.rs:240-253 | every line in order |
| Day3.DrawTwo | day_3/src/main.rs:240-253 | the same for part two |
| Day3.RunOne | day_3/src/main.rs:239-264 | `run` with `PartOne` |
| Day3.RunTwo | day_3/src/main.rs:239-269 | `run` with `PartTwo`, as `main` does |
| Day4.Digits | day_4/src/main.rs:12-30 | the digits are below 10, least significant first, with no trailing zero |
| Day4.DigitsValue | day_4/src/main.rs:12-30 | the digits denote the number |
| Day4.ValueDigits | day_4/src/main.rs:12-30 | digit lists without a trailing zero are the digits of their value |
| Day4.ValuePositive | day_4/src/main.rs:15-18 | a non-empty digit list denotes a positive number |
| Day4.NumSplitIter.constructor | day_4/src/main.rs:28-30 | starts at the number |
| Day4.NumSplitIter.Next | day_4/src/main.rs:15-26 | yields the last digit and divides by 10, or ends at 0; the digits are consumed in order |
| Day4.SplitNum | day_4/src/main.rs:28-30 | draining the iterator yields the digits |
| Day4.EqualNeighboursExist | day_4/src/main.rs:32-36 | `has_double_digit` iff two neighbouring digits are equal |
| Day4.NonIncreasingSorted | day_4/src/main.rs:48-52 | `only_increasing` iff the digits, read from the most significant one, never decrease |
| Day4.Groups | day_4/src/main.rs:38-46 | groups exist iff the input is non-empty; the first group has the first value; every group has size at least 1 |
| Day4.GroupsAreMaximalRuns | day_4/src/main.rs:38-46 | `group_by` splits the list into maximal runs |
| Day4.ShrunkValues | day_4/src/main.rs:38-46 | shrinking runs keeps their values |
| Day4.LaterGroupsSmaller | day_4/src/main.rs:38-52 | for sorted digits later runs have smaller values |
| Day4.FlattenAt | day_4/src/main.rs:38-46 | each run starts at its offset |
| Day4.GroupStartShift | day_4/src/main.rs:38-46 | offsets shift by the first run |
| Day4.RepeatLength | day_4/src/main.rs:38-46 | a run has its size |
| Day4.FirstGroupCovers | day_4/src/main.rs:38-46 | for sorted digits the first run covers every equal digit |
| Day4.EqualPairGroups | day_4/src/main.rs:38-46 | for sorted digits, the runs of the equal-pair list are the runs of the digits, each one shorter |
| Day4.ShrunkHasPair | day_4/src/main.rs:38-46 | a shrunk run of size 1 is a run of exactly 2 |
| Day4.MultiDigitMeansRunOfTwo | day_4/src/main.rs:38-46 | for increasing numbers, `has_multi_digit` iff some digit run has length exactly 2 |
| Day4.EqualPairsFound | day_4/src/main.rs:32-46 | the equal-pair list is non-empty iff two neighbours are equal |
| Day4.MultiImpliesDouble | day_4/src/main.rs:32-46 | part two's rule implies part one's |
| Day4.CountInSnoc | day_4/src/main.rs:54-78 | counting one more number adds its verdict |
| Day4.CountInMono | day_4/src/main.rs:54-78 | a stronger test counts no more |
| Day4.Count | day_4/src/main.rs:54-78 | the counting loop counts the numbers passing the test |
| Day4.PartOne | day_4/src/main.rs:54-65 | counts 357253..892942 with a double digit and increasing digits |
| Day4.PartTwo | day_4/src/main.rs:67-78 | counts that range with a run of exactly two and increasing digits |
| Day4.PartTwoAtMostPartOne | day_4/src/main.rs:54-78 | part two's count never exceeds part one's |
| Day6.FindChar | day_6/src/main.rs:22-24 | the first position of the character, or none iff absent |
| Day6.ParseEdge | day_6/src/main.rs:22-29 | a line parses iff it holds a `)` |
| Day6.ParseEdgeSplits | day_6/src/main.rs:22-29 | the line is attractor, `)`, orbit with no `)` in the attractor |
| Day6.ParseEdgeReadsBack | day_6/src/main.rs:22-29 | a written edge parses back |
| Day6.CollectedFails | day_6/src/main.rs:18-31 | collecting fails iff some line lacks `)`, naming the first such line |
| Day6.CollectedStaysFailed | day_6/src/main.rs:18-31 | a failure stops the collection |
| Day6.CollectedLists | day_6/src/main.rs:18-31 | each attractor lists its orbits in line order; keys are exactly the attractors |
| Day6.Collect | day_6/src/main.rs:18-31 | the loop as `Collected` |
| Day6.EntriesBelow | day_6/src/main.rs:33-39 | children rank below their attractor |
| Day6.SumAppend | day_6/src/main.rs:33-43 | sums add over concatenation |
| Day6.CountSumsDepths | day_6/src/main.rs:33-39 | `count_children` sums the depth of every object below |
| Day6.FoldSumsDepths | day_6/src/main.rs:33-39 | the fold over children does the same |
| Day6.PathFound | day_6/src/main.rs:49-64 | a path is found iff the target is reachable |
| Day6.SearchFound | day_6/src/main.rs:49-64 | searching the children succeeds iff one of them is or reaches the target |
| Day6.PathIsChain | day_6/src/main.rs:49-64 | the path found is a chain of orbits |
| Day6.SearchIsChain | day_6/src/main.rs:49-64 | the same through the children |
| Day6.Deque.constructor | day_6/src/main.rs:67 | empty |
| Day6.Deque.PushFront | day_6/src/main.rs:58 | prepends |
| Day6.InnerFind | day_6/src/main.rs:49-64 | finds iff a path exists and prepends it |
| Day6.Find | day_6/src/main.rs:66-70 | the path from COM, non-empty iff the key is reachable, and then an orbit chain |
| Day6.CommonPrefix | day_6/src/main.rs:72-85 | the length of the shared prefix |
| Day6.SkipFindsPrefixEnd | day_6/src/main.rs:72-80 | skipping equal names stops at the end of the shared prefix |
| Day6.CountRestCounts | day_6/src/main.rs:80-83 | counts the rest of both paths |
| Day6.TransfersAfterCommonPrefix | day_6/src/main.rs:72-85 | transfers are the two paths' lengths minus twice their shared prefix; equal paths never end |
| Day6.PartTwo | day_6/src/main.rs:72-85 | transfers between the YOU and SAN paths |
| Day6.ExampleEntries | day_6/src/main.rs:105-119 | the example map |
| Day6.ExampleTotal | day_6/src/main.rs:105-119 | the example has 42 orbits |
| Day6.ExampleFindsK | day_6/src/main.rs:120-132 | the example's path to K |
| Day8.Chunks | day_8/src/main.rs:28-33 | `chunks(n)` pieces are n long except the last, which is non-empty |
| Day8.ChunksConcat | day_8/src/main.rs:28-33 | the chunks concatenate to the input |
| Day8.FirstStray | day_8/src/main.rs:39-44 | the first character other than 0, 1, 2, or none |
| Day8.TalliedCounts | day_8/src/main.rs:37-45 | a clean layer's tally adds its counts of 0, 1 and 2; a stray character fails |
| Day8.TallyAll | day_8/src/main.rs:36-46 | every layer's tally, in order |
| Day8.Least | day_8/src/main.rs:46-47 | the least tally is one of them |
| Day8.PartOneFails | day_8/src/main.rs:35-49 | "no answer" iff the trimmed image is empty; the unexpected input is a stray character |
| Day8.PartOneFewestZeros | day_8/src/main.rs:35-49 | the answer is ones times twos of a layer with the least tally |
| Day8.TallyAllStray | day_8/src/main.rs:39-44 | failures are stray characters |
| Day8.VisibleIsFirstOpaque | day_8/src/main.rs:70-83 | a pixel is transparent iff all layers are, else the first opaque layer's colour |
| Day8.VisibleSnoc | day_8/src/main.rs:74-80 | a layer below shows only through transparency |
| Day8.Composed | day_8/src/main.rs:70-83 | the visible pixel at each position |
| Day8.Stack | day_8/src/main.rs:71-81 | the buffer loop composes the layers |
| Day8.Overlay | day_8/src/main.rs:74-80 | one layer painted under transparent pixels |
| Day8.Shade | day_8/src/main.rs:58-62 | black is a space; anything else an X |
| Day8.RowText | day_8/src/main.rs:53-65 | a row's shaded pixels |
| Day8.Rows | day_8/src/main.rs:53-65 | height rows |
| Day8.EncodeImage | day_8/src/main.rs:51-68 | the rows joined by newlines |
| Day8.EncodedLines | day_8/src/main.rs:51-68 | the drawing splits back into its rows |
| Day8.PartTwo | day_8/src/main.rs:70-83 | draws the composed image |
| Day8.ChunksPrepend | day_8/src/main.rs:28-33 | chunking a full chunk then the rest |
| Day8.ExampleTrimmed | day_8/src/main.rs:100-107 | the example is trimmed |
| Day8.ExampleChunks | day_8/src/main.rs:100-107 | its four layers |
| Day8.ExampleLayers | day_8/src/main.rs:100-107 | the same through `layers` |
| Day8.ExampleComposed | day_8/src/main.rs:100-107 | composes to 0110 |
| Day8.ExampleDrawn | day_8/src/main.rs:100-107 | draws " X" and "X " |
| Day10.Minus | day_10/src/main.rs:17-37 | componentwise difference, zero iff equal |
| Day10.GcdZero | day_10/src/main.rs:40-46 | the gcd is 0 iff both are |
| Day10.GcdDivides | day_10/src/main.rs:40-46 | the gcd divides both |
| Day10.GcdScale | day_10/src/main.rs:40-46 | scaling both scales the gcd |
| Day10.Slope | day_10/src/main.rs:40-46 | zero for the origin, else the vector is the gcd times the slope |
| Day10.SlopeBetween | day_10/src/main.rs:48-50 | zero iff the asteroids coincide |
| Day10.SlopeBetweenReverses | day_10/src/main.rs:48-50 | the reverse slope is negated |
| Day10.SlopeNegates | day_10/src/main.rs:40-46 | negating a vector negates its slope |
| Day10.SlopeScales | day_10/src/main.rs:40-46 | positive multiples share the slope |
| Day10.SlopeReduced | day_10/src/main.rs:40-46 | a slope's components are coprime |
| Day10.SlopesMatchExactlyOnRays | day_10/src/main.rs:40-50 | two vectors share a slope iff they lie on one ray from the origin |
| Day10.RowMembers | day_10/src/main.rs:62-68 | a row yields an asteroid exactly at each `#` |
| Day10.GridMembers | day_10/src/main.rs:57-72 | the grid yields exactly the `#` positions |
| Day10.RowOrdered | day_10/src/main.rs:62-68 | left to right in its row |
| Day10.GridOrdered | day_10/src/main.rs:57-72 | row-major order |
| Day10.ReadAsteroids | day_10/src/main.rs:57-72 | the reading loop yields the grid's asteroids |
| Day10.ReadRow | day_10/src/main.rs:62-68 | one row appended |
| Day10.ReadAsteroidsMeaning | day_10/src/main.rs:57-72 | exactly the `#` positions, row-major |
| Day10.SightsGrow | day_10/src/main.rs:77-80 | one more asteroid adds its slope unless it is the station |
| Day10.CountSights | day_10/src/main.rs:77-81 | the number of distinct slopes to the others |
| Day10.BestIsUnique | day_10/src/main.rs:83-87 | the greatest (count, asteroid) pair is unique |
| Day10.PartOne | day_10/src/main.rs:74-88 | the greatest (count, asteroid) pair, or "didn't find answer" iff no asteroids |
| Day10.Greatest | day_10/src/main.rs:83-86 | `max` of the (count, asteroid) pairs |
| Day11.Delta | day_11/src/main.rs:76-83 | each direction steps one unit, vertically exactly for up and down |
| Day11.TurnedLeft | day_11/src/main.rs:17-25 | a quarter turn anticlockwise: the step (dx, dy) of the old direction becomes (-dy, dx) |
| Day11.TurnedRight | day_11/src/main.rs:26-34 | a quarter turn clockwise: the step (dx, dy) of the old direction becomes (dy, -dx) |
| Day11.TurnsAreInverse | day_11/src/main.rs:17-34 | left and right undo each other |
| Day11.FourTurnsReturn | day_11/src/main.rs:17-34 | four turns return |
| Day11.Stepped | day_11/src/main.rs:76-83 | one unit step by the facing direction: up +y, down -y, left -x, right +x |
| Day11.AfterOutput | day_11/src/main.rs:97-117 | even outputs paint the panel (0 black, else white); odd ones turn (0 left, else right) and step |
| Day11.InputFor | day_11/src/main.rs:119-130 | feeds 1 on white and 0 on black, consuming the starting panel |
| Day11.RespondedKeepsPanels | day_11/src/main.rs:89-95 | painted panels are never forgotten |
| Day11.RanKeepsPanels | day_11/src/main.rs:132-135 | the same over a run |
| Day11.FedKeepsPanels | day_11/src/main.rs:119-130 | the same over an input |
| Day11.PaintsOnlyUnderRobot | day_11/src/main.rs:97-117 | only the panel under the robot is painted |
| Day11.Shade | day_11/src/main.rs:137-158 | `#` iff white |
| Day11.Row | day_11/src/main.rs:145-155 | a line of shades |
| Day11.GridSplit | day_11/src/main.rs:137-158 | the drawing splits by x |
| Day11.GridLength | day_11/src/main.rs:137-158 | the drawing's size |
| Day11.GridShows | day_11/src/main.rs:137-158 | line x of the drawing holds the shade of each panel (x, y) at column y |
| Day11.WhitePanelsShown | day_11/src/main.rs:137-158 | every white panel is drawn as `#` |
| Day11.Extent | day_11/src/main.rs:138-144 | least and greatest x and y of painted panels |
| Day11.Robot.New | day_11/src/main.rs:59-75 | a new robot at the origin facing up |
| Day11.Robot.Step | day_11/src/main.rs:76-83 | moves one panel |
| Day11.Robot.HandleStatus | day_11/src/main.rs:89-95 | dispatches the status as `Responded` |
| Day11.Robot.RunWithOutput | day_11/src/main.rs:97-117 | as `AfterOutput`, then runs |
| Day11.Robot.RunWithInput | day_11/src/main.rs:119-130 | as `Fed` |
| Day11.Robot.Run | day_11/src/main.rs:132-135 | as `Ran` |
| Day11.Robot.Output | day_11/src/main.rs:137-158 | none iff nothing is painted; otherwise one line per x from min x - 1 to max x, each holding the shades for y from min y - 1 to max y |
| Day11.PartOne | day_11/src/main.rs:165-175 | the number of panels painted |
| Day11.PartTwo | day_11/src/main.rs:165-175 | from a white start: running out of fuel or a machine error is reported; a clean exit with nothing painted is `NothingPainted`; a clean exit with paint returns the drawing within the frame of the painted panels |
| Day12.AbsoluteSum | day_12/src/main.rs:70-72 | zero iff the origin, at least each magnitude |
| Day12.GravityFromPosition | day_12/src/main.rs:75-83 | the sign of the difference |
| Day12.ApplyGravity | day_12/src/main.rs:129-149 | each moon moves one unit towards the other on that axis; the pair's velocity sum is kept |
| Day12.ApplyVelocity | day_12/src/main.rs:150-163 | position plus velocity on that axis |
| Day12.MoonEnergy | day_12/src/main.rs:164-174 | zero iff still or at the origin |
| Day12.Stepped | day_12/src/main.rs:28-41 | velocity gains the pull of all others; position then moves by it |
| Day12.StepSpec | day_12/src/main.rs:28-41 | every moon stepped |
| Day12.StepAllSpec | day_12/src/main.rs:43-47 | x, y, z in turn |
| Day12.StepAllTimes | day_12/src/main.rs:182-184 | n rounds |
| Day12.PullIsCross | day_12/src/main.rs:75-83 | pull is the negated cross term |
| Day12.TotalPullExtend | day_12/src/main.rs:29-36 | one more moon adds its pull |
| Day12.PullsCancel | day_12/src/main.rs:29-36 | all pulls cancel |
| Day12.MomentumGains | day_12/src/main.rs:28-41 | momentum gains the total pull |
| Day12.StepKeepsMomentum | day_12/src/main.rs:28-41 | a step keeps total momentum |
| Day12.Energies | day_12/src/main.rs:53-55 | each moon's energy |
| Day12.SumZeroIff | day_12/src/main.rs:53-55 | a sum is zero iff all terms are |
| Day12.EnergyZeroIff | day_12/src/main.rs:49-55 | zero energy iff every moon is still or at the origin; at rest means zero energy |
| Day12.PairPulled | day_12/src/main.rs:29-36 | the pair loop applies each pair once |
| Day12.System.constructor | day_12/src/main.rs:20-27 | holds the moons |
| Day12.System.Step | day_12/src/main.rs:28-42 | as `StepSpec` |
| Day12.System.PullAllPairs | day_12/src/main.rs:29-36 | every pair pulled |
| Day12.System.PullPairsFrom | day_12/src/main.rs:29-36 | the pairs of one moon |
| Day12.System.MoveAll | day_12/src/main.rs:38-40 | velocities applied |
| Day12.System.StepAll | day_12/src/main.rs:43-47 | as `StepAllSpec` |
| Day12.System.AtRest | day_12/src/main.rs:49-51 | iff every velocity is zero |
| Day12.System.TotalEnergy | day_12/src/main.rs:53-55 | the system energy; zero at rest |
| Day12.Part1 | day_12/src/main.rs:181-186 | energy after 1000 rounds |
| Day12.TrimStartMatches | day_12/src/main.rs:114 | drops exactly the leading character |
| Day12.TrimEndMatches | day_12/src/main.rs:115 | drops exactly the trailing character |
| Day12.SplitDecls | day_12/src/main.rs:116 | at least one piece |
| Day12.ReadDecl | day_12/src/main.rs:95-100 | malformed input iff there is no piece; otherwise `Ok` of the piece's i32 value, or a `ParseIntError` naming the piece when it is not an i32 |
| Day12.KeyAxis | day_12/src/main.rs:118-123 | exactly the keys "x", "y" and "z" name a coordinate, each its own |
| Day12.Declare | day_12/src/main.rs:116-124 | a key other than x, y, z panics with that key; a known key with no `=` piece is malformed input; a value that is not an i32 is a `ParseIntError` naming it; otherwise only the named coordinate changes, to the parsed value |
| Day12.DeclareAll | day_12/src/main.rs:112-125 | keeps velocity |
| Day12.ParseFromStr | day_12/src/main.rs:110-128 | as `ParseMoon`, with zero velocity |
| Day12.SplitDeclsPlain | day_12/src/main.rs:116 | a comma-free piece alone |
| Day12.SplitDeclsCons | day_12/src/main.rs:116 | splits at the first separator |
| Day12.SplitKeyValue | day_12/src/main.rs:118 | key and value |
| Day12.DeclPieces | day_12/src/main.rs:118 | a written declaration splits into key and value |
| Day12.DeclareRendered | day_12/src/main.rs:119-122 | sets that coordinate |
| Day12.TrimBrackets | day_12/src/main.rs:114-115 | strips the angle brackets |
| Day12.SplitThree | day_12/src/main.rs:116 | three declarations |
| Day12.DeclNoComma | day_12/src/main.rs:116 | a declaration has no comma |
| Day12.DeclsOfRendered | day_12/src/main.rs:112-117 | the three declarations |
| Day12.DeclareAllRendered | day_12/src/main.rs:112-126 | sets all three |
| Day12.ParseRendered | day_12/src/main.rs:110-128 | a written moon parses back, still |
| Day12.MoonsOf | day_12/src/main.rs:21 | one parse per line, each the parse of that line, in order |
| Day12.CollectMoons | day_12/src/main.rs:21-23 | succeeds iff every line parsed, then holds each value in order; otherwise passes on the failure of the first line that did not parse |
| Day12.ParseSystem | day_12/src/main.rs:19-24 | succeeds iff every line is a moon, then holds every line's moon in order; otherwise fails as the first bad line does |
| Day12.RenderedSystem | day_12/src/main.rs:20-27 | every position written |
| Day12.StillAt | day_12/src/main.rs:20-27 | still moons at the positions |
| Day12.SystemRendered | day_12/src/main.rs:20-27 | written positions parse back to still moons |
| Day12.RenderSpelled | day_12/src/main.rs:216-268 | the example line format |
| Day12.ExampleLine1 | day_12/src/main.rs:216-268 | first example line |
| Day12.ExampleLine2 | day_12/src/main.rs:216-268 | second example line |
| Day12.ExampleLine3 | day_12/src/main.rs:216-268 | third example line |
| Day12.ExampleLine4 | day_12/src/main.rs:216-268 | fourth example line |
| Day12.ExampleInputRendered | day_12/src/main.rs:216-268 | the example input |
| Day12.ExampleParses | day_12/src/main.rs:216-268 | parses to the starting moons |
| Day12.ExampleStartStill | day_12/src/main.rs:216-268 | they are still |
| Day12.ExamplePositionsI32 | day_12/src/main.rs:216-268 | positions fit in `i32` |
| Day12.StepSpecIs | day_12/src/main.rs:28-41 | a step is determined per moon |
| Day12.ExampleOneXStep | day_12/src/main.rs:216-268 | after x |
| Day12.ExampleOneYStep | day_12/src/main.rs:216-268 | after y |
| Day12.ExampleAfterOneStep | day_12/src/main.rs:216-268 | after one round |
| Day12.ExampleTwoXStep | day_12/src/main.rs:216-268 | second round after x |
| Day12.ExampleTwoYStep | day_12/src/main.rs:216-268 | after y |
| Day12.ExampleAfterTwoStep | day_12/src/main.rs:216-268 | after two rounds |
| Day12.ExampleSteps | day_12/src/main.rs:216-268 | the example's states after one and two rounds |
| Day13.Code | day_13/src/main.rs:16-22 | tile codes are 0..4 |
| Day13.TileOf | day_13/src/main.rs:24-35 | defined exactly on 0..4, inverse of the code |
| Day13.TileCodeRoundTrip | day_13/src/main.rs:24-35 | a tile's code maps back to it |
| Day13.NextReading | day_13/src/main.rs:43-60 | every third output completes an (x, y, tile) triple |
| Day13.Pending | day_13/src/main.rs:37-41 | fewer than three pending outputs |
| Day13.Triples | day_13/src/main.rs:43-60 | a third as many triples as outputs |
| Day13.FeedGroupsTriples | day_13/src/main.rs:43-60 | outputs are grouped into consecutive triples with the remainder pending |
| Day13.ReadingStep | day_13/src/main.rs:43-60 | one output at a time |
| Day13.Grown | day_13/src/main.rs:120-129 | `resize` keeps the prefix and fills the rest |
| Day13.PlacedWrites | day_13/src/main.rs:120-129 | grows the screen as needed and sets exactly that tile |
| Day13.RowBlocks | day_13/src/main.rs:162-171 | at most the row's length |
| Day13.RowBlocksCounts | day_13/src/main.rs:162-171 | counts block tiles |
| Day13.CountBlocksCounts | day_13/src/main.rs:162-171 | counts all block tiles |
| Day13.BlankHasNoBlocks | day_13/src/main.rs:112-118 | a cleared screen has no blocks |
| Day13.RowBlankHasNoBlocks | day_13/src/main.rs:112-118 | a cleared row has none |
| Day13.Drawn | day_13/src/main.rs:131-145 | (-1, 0) sets the score; otherwise an on-screen known tile is placed; unknown tiles and negative coordinates crash |
| Day13.TookPassesOn | day_13/src/main.rs:131-145 | statuses other than output are returned |
| Day13.TookSettles | day_13/src/main.rs:131-145 | the returned status is never an output |
| Day13.RanSettles | day_13/src/main.rs:147-150 | the same for `run` |
| Day13.TookOnlyRuns | day_13/src/main.rs:131-145 | outputs only resume with `run` |
| Day13.RanOnlyRuns | day_13/src/main.rs:147-150 | the same for `run` |
| Day13.Arcade.New | day_13/src/main.rs:95-103 | score 0, empty screen |
| Day13.Arcade.Clear | day_13/src/main.rs:112-118 | every tile empty, sizes kept |
| Day13.Arcade.SetTile | day_13/src/main.rs:120-129 | as `Placed` |
| Day13.Arcade.HandleStatus | day_13/src/main.rs:131-145 | as `Took` |
| Day13.Arcade.Run | day_13/src/main.rs:147-150 | as `Ran` |
| Day13.Arcade.RunWithInput | day_13/src/main.rs:152-155 | as `RanWithInput` |
| Day13.PartOne | day_13/src/main.rs:162-171 | the block count after the run |

## Left out

- Reading stdin and files (`DayInput`, `read_to_string`, `BufRead::lines`), `println!`, and the prompts and `output>>>` framing that exec writes to stdout. The text the program reads is a parameter. The VM's stdout becomes a sequence of the integers written.
- I/O errors of the real streams (`InputError`, `OutputError`, `ReadToString`). The in-memory model cannot fail there. At end of input, `read_line` yields an empty line, which then fails to parse.
- `Port` (the stdin/stdout port in ports.rs) and `stdport`: only `VecPort` is modelled.
- The concrete `VMType` behind the executor, day 11's robot and day 13's arcade is not part of this model. `ResumableVm` stands for any deterministic machine, given as a function from its call history to a status.
- Relative-base mode and the `i64` machine of later days: they are not in the modelled sources.
- IntcodeVm.Run: loops that run until the machine halts take a `fuel` bound. Running out is reported as `OutOfFuel`, not as non-termination. The same holds for LegacyIntcode.Run, Day2.Run, Day11.Robot.Run and Day13.Arcade.Run. For day 2 the bound is harmless: Day2.RunEnds and Day2.SearchNeverRunsOut show that fuel beyond the program's length never runs out, so Day2.Program.Search then never returns `SearchOutOfFuel`.
- Day11.PartTwo: like the other machine-driven parts, it is stated for a given fuel.
- Integer widths: `i32`/`i64`/`usize` overflow is not modelled in day 3, day 11 and day 12 (coordinates, costs, energies), nor in the `as i32` casts of day 10. The intcode VMs treat `i32` overflow in add/multiply as a panic, as a debug build does.
- Day10.Slope: `num::integer::gcd` is modelled as Euclid's algorithm on magnitudes.
- day_10's `distance` and `part2`: these use floating-point angles.
- day_13's `Display` impl, `free_play`, `load_program` and `part2`: the game loop needs joystick input and drawing.
- day_11's `load_program`.
- day_12's `part2`/`cycle_for_coord`: it searches for a cycle with no bound.
- day_1, day_5, day_7 and day_9 are not part of this model.
- Day3.PartOne.Set: the diagonal-movement panic is a precondition (dx == 0 or dy == 0). `run` never moves diagonally.
- Day3.ReadInstruction: `split_at(1)` on an empty instruction panics in the source. The model reports it as `EmptyInstruction`. An unknown direction letter, which panics in the source, is `UnknownDirection`.
- Day13.Drawn: the panic of a negative coordinate cast to `usize` is reported as `OffScreen`.
- Day6.Find: requires the whole orbit map to be acyclic (the `Ranked` precondition: a rank that decreases along every entry). The source only recurses forever on a cycle reachable from COM. A cycle elsewhere, such as the lines `A)B` and `B)A`, is never visited by the source but is still excluded here. The same precondition is on Day6.PartOne, Day6.PartTwo, Day6.InnerFind, Day6.CountSumsDepths, Day6.FoldSumsDepths, Day6.EntriesBelow, Day6.PathFound, Day6.SearchFound, Day6.PathIsChain, Day6.SearchIsChain, Day6.CountChildren, Day6.CountRelationships, Day6.FoldCount, Day6.FoundPath, Day6.PathFrom and Day6.Search.
- Day6.PartTwo: when both paths are equal, part2's `loop` never ends. The model returns `None` there.
- Day6.ExampleTotal: the test's example is stated on the collected map, not on its text lines.
- Day8.PartOne: requires width * height > 0, because `chunks(0)` panics. Day8.PartTwo, Day8.PartOneFails and Day8.PartOneFewestZeros carry the same precondition. The `panic!` on an unexpected byte is reported as `UnexpectedInput`. `Day8::new` reading the file is not modelled.
- Day4.PartOne: rayon's parallel iteration and the timing and printing are left out. The count is a sequential loop. `u32` is not modelled because the range fits.
- Bytes are modelled as `char`s: every input the sources read is ASCII.
