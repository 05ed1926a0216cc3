/** The `Status` protocol (advent_common/src/intcode/status.rs) and the
    `Executor` driver of advent_common/src/intcode/mod.rs, which turns a
    resumable Intcode machine plus a `VecPort` into a sequence of outputs.

    The machine behind `VMType` has no implementation among the modelled
    files, so it is represented by `ResumableVm`: a machine whose every
    reply is a fixed function of the calls made on it so far. Any
    deterministic machine is of that form. */
module IntcodeExecutor {
  import opened Common
  import opened IntcodeErrors
  import opened IntcodePorts

  /** Why a machine stopped running. */
  datatype Status =
    | Exited(result: Result<(), ErrorKind>)
    | HasOutput(out: int)
    | RequiresInput

  /** A call of `Runable`: `run()` or `run_with_input(i)`. */
  datatype Call = RunCall | InputCall(input: int)

  /** A machine's replies: the status it reports after each call history. */
  type Behaviour = seq<Call> -> Status

  /** Outputs of a machine are i32 values (`Status::HasOutput(i32)`). */
  ghost predicate OutputsI32(b: Behaviour) {
    forall h :: b(h).HasOutput? ==> IsI32(b(h).out)
  }

  /** What one pull of the iterator produces: the item, and the machine's
      call history and the port's queues afterwards. */
  datatype Pull = Pull(item: Option<Result<int, ErrorKind>>, history: seq<Call>, queues: Queues)

  /** The calls `run_with_input(x)` for each `x` of `xs`, in order. */
  function Feeds(xs: seq<int>): (r: seq<Call>)
    ensures |r| == |xs|
  {
    if xs == [] then [] else [InputCall(xs[0])] + Feeds(xs[1..])
  }

  /** `on_exit` on values: handles `status`, feeding the machine from the
      port for as long as it asks for input. Each round consumes one input,
      so the recursion ends when the queue runs dry. The machine is resumed
      once per value read, with exactly the values read, in queue order. */
  function Handled(b: Behaviour, h: seq<Call>, q: Queues, status: Status): (r: Pull)
    ensures r.item.Some? && r.item.value.Ok? ==> r.queues.output == q.output + [r.item.value.value]
    ensures !(r.item.Some? && r.item.value.Ok?) ==> r.queues.output == q.output
    decreases |q.input|
  {
    match status
    case Exited(e) => Pull(if e.Ok? then None else Some(Err(e.error)), h, q)
    case HasOutput(out) => Pull(Some(Ok(out)), h, Written(q, out))
    case RequiresInput =>
      var read := Read(q);
      if read.0.Ok? then
        var h' := h + [InputCall(read.0.value)];
        Handled(b, h', read.1, b(h'))
      else
        Pull(Some(read.0), h, q)
  }

  /** While handling a status, the machine is resumed once per value read
      from the port, with exactly the values read, in queue order, and
      nothing else is called on it. */
  lemma {:induction false} HandledFeedsInOrder(b: Behaviour, h: seq<Call>, q: Queues, status: Status)
    ensures var r := Handled(b, h, q, status);
      var fed := |q.input| - |r.queues.input|;
      0 <= fed <= |q.input| && r.queues.input == q.input[fed..] && r.history == h + Feeds(q.input[..fed])
    decreases |q.input|
  {
    var r := Handled(b, h, q, status);
    if status.RequiresInput? && q.input != [] {
      var h' := h + [InputCall(q.input[0])];
      HandledFeedsInOrder(b, h', Queues(q.input[1..], q.output), b(h'));
      var fed := |q.input| - |r.queues.input|;
      FeedsStep(q.input, fed);
    } else {
      assert q.input[..0] == [] && q.input[0..] == q.input;
    }
  }

  lemma FeedsStep(xs: seq<int>, fed: nat)
    requires 0 < fed <= |xs|
    ensures [InputCall(xs[0])] + Feeds(xs[1..][..fed - 1]) == Feeds(xs[..fed])
    ensures xs[1..][fed - 1..] == xs[fed..]
  {
    assert xs[..fed][1..] == xs[1..][..fed - 1];
  }

  /** `next` on values: one `run()` call, then `on_exit`. */
  function Pulled(b: Behaviour, h: seq<Call>, q: Queues): Pull
  {
    var h' := h + [RunCall];
    Handled(b, h', q, b(h'))
  }

  /** Each pull calls `run()` exactly once, first, and afterwards only
      resumes the machine with values taken from the front of the port. */
  lemma PullRunsOnce(b: Behaviour, h: seq<Call>, q: Queues)
    ensures var r := Pulled(b, h, q);
      var fed := |q.input| - |r.queues.input|;
      0 <= fed <= |q.input| && r.queues.input == q.input[fed..] && r.history == h + [RunCall] + Feeds(q.input[..fed])
  {
    HandledFeedsInOrder(b, h + [RunCall], q, b(h + [RunCall]));
  }

  /** `n` pulls of the iterator in a row: the items, in order, and the
      final history and queues. */
  function Pulls(b: Behaviour, h: seq<Call>, q: Queues, n: nat): (r: (seq<Option<Result<int, ErrorKind>>>, seq<Call>, Queues))
    ensures |r.0| == n
    decreases n
  {
    if n == 0 then ([], h, q)
    else
      var first := Pulled(b, h, q);
      var rest := Pulls(b, first.history, first.queues, n - 1);
      ([first.item] + rest.0, rest.1, rest.2)
  }

  /** The values of the `Some(Ok(v))` items, in order. */
  function OkValues(items: seq<Option<Result<int, ErrorKind>>>): (r: seq<int>)
    ensures |r| <= |items|
  {
    if items == [] then []
    else if items[0].Some? && items[0].value.Ok? then [items[0].value.value] + OkValues(items[1..])
    else OkValues(items[1..])
  }

  /** With a `VecPort`, every value the executor yields as `Ok` has been
      written to the port, in the same order, and nothing else has. */
  lemma {:induction false} YieldedValuesAreOutput(b: Behaviour, h: seq<Call>, q: Queues, n: nat)
    ensures Pulls(b, h, q, n).2.output == q.output + OkValues(Pulls(b, h, q, n).0)
    decreases n
  {
    if n > 0 {
      var first := Pulled(b, h, q);
      var rest := Pulls(b, first.history, first.queues, n - 1);
      YieldedValuesAreOutput(b, first.history, first.queues, n - 1);
      var items := [first.item] + rest.0;
      assert items[1..] == rest.0;
      if first.item.Some? && first.item.value.Ok? {
        assert OkValues(items) == [first.item.value.value] + OkValues(rest.0);
      } else {
        assert OkValues(items) == OkValues(rest.0);
      }
    } else {
      assert OkValues([]) == [];
    }
  }

  /** A resumable machine (`Runable`): it records the calls made on it and
      answers each with the status its behaviour assigns to that history. */
  class ResumableVm {
    const behaviour: Behaviour
    var history: seq<Call>

    ghost predicate Valid()
      reads this
    {
      OutputsI32(behaviour)
    }

    constructor New(b: Behaviour)
      requires OutputsI32(b)
      ensures Valid() && behaviour == b && history == []
    {
      behaviour := b;
      history := [];
    }

    /** `run()`. */
    method Run() returns (s: Status)
      requires Valid()
      modifies this
      ensures Valid() && history == old(history) + [RunCall] && s == behaviour(history)
      ensures s.HasOutput? ==> IsI32(s.out)
    {
      history := history + [RunCall];
      s := behaviour(history);
    }

    /** `run_with_input(input)`. */
    method RunWithInput(input: int) returns (s: Status)
      requires Valid()
      modifies this
      ensures Valid() && history == old(history) + [InputCall(input)] && s == behaviour(history)
      ensures s.HasOutput? ==> IsI32(s.out)
    {
      history := history + [InputCall(input)];
      s := behaviour(history);
    }
  }

  /** `Executor`: owns a machine and a port; pulling from it runs the
      machine until it produces an output, exits or fails. */
  class Executor {
    const v: ResumableVm
    const p: VecPort

    ghost predicate Valid()
      reads this, v, p
    {
      v.Valid() && p.Valid()
    }

    /** `Runner::run`: stores the machine and the port as given. */
    constructor Run(vm: ResumableVm, port: VecPort)
      ensures v == vm && p == port
    {
      v := vm;
      p := port;
    }

    /** `port()` / `port_mut()`. */
    function Port(): (r: VecPort)
      reads this
      ensures r == p
    {
      p
    }

    /** `vm()` / `vm_mut()`. */
    function Vm(): (r: ResumableVm)
      reads this
      ensures r == v
    {
      v
    }

    /** `next`: calls `run()` once and handles the status it returns. */
    method Next() returns (r: Option<Result<int, ErrorKind>>)
      requires Valid()
      modifies v, p
      ensures Valid()
      ensures Pull(r, v.history, p.State()) == Pulled(v.behaviour, old(v.history), old(p.State()))
    {
      var status := v.Run();
      r := OnExit(status);
    }

    /** `on_exit`: an exit ends the sequence or yields its error; an output
        is written to the port and yielded; a request for input reads one
        value from the port, resumes the machine with it and handles the
        new status, or yields the read error without resuming. */
    method OnExit(status: Status) returns (r: Option<Result<int, ErrorKind>>)
      requires Valid()
      requires status.HasOutput? ==> IsI32(status.out)
      modifies v, p
      ensures Valid()
      ensures Pull(r, v.history, p.State()) == Handled(v.behaviour, old(v.history), old(p.State()), status)
      decreases |p.input|
    {
      match status {
        case Exited(e) =>
          r := if e.Ok? then None else Some(Err(e.error));
        case HasOutput(out) =>
          var _ := p.WriteInt(out);
          r := Some(Ok(out));
        case RequiresInput =>
          var read := p.ReadInt();
          if read.Ok? {
            var next := v.RunWithInput(read.value);
            r := OnExit(next);
          } else {
            r := Some(read);
          }
      }
    }
  }
}
