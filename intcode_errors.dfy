/** The error enums of the Intcode interpreter (advent_common/src/intcode/errors.rs,
    repeated verbatim in the older advent_common/src/intcode.rs), plus the
    Rust panics the interpreter can hit, so that every way a step can stop
    is a value. */
module IntcodeErrors {

  /** Which memory access failed. */
  datatype OutOfBoundsReference =
    | ReferenceParameter   // a parameter pointed outside memory
    | OpCodeLength         // the instruction window was too short

  /** I/O failures. The `io::Error` payloads are dropped: the model's
      streams never fail. `OutOfStaticInputError` is raised by `VecPort`. */
  datatype IoError =
    | InputError
    | OutputError
    | IoParseError(text: string)   // IOError::StringParseError
    | OutOfStaticInputError

  datatype ErrorKind =
    | ReadToString
    | StringParseError(token: string)
    | MemoryError(reference: OutOfBoundsReference)
    | UnknownOpcodeError(code: int)
    | IOError(io: IoError)
    | ImmediateModeOutputError

  /** A Rust panic: the thread aborts instead of returning an error. */
  datatype Panic =
    | ArithmeticOverflow       // i32 `+`/`*` overflow in a debug build
    | SliceIndexOutOfRange     // `memory[ip..]` with ip > len, or `memory[i]` out of range
    | UnknownOpcode(code: int) // day 2's `panic!` on an unknown opcode

  /** How an interpreter step can fail: an `Err` it returns or a panic. */
  datatype Fault = Error(kind: ErrorKind) | Panicked(panic: Panic)
}
