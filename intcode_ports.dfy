/** The in-memory test port `VecPort` of advent_common/src/intcode/ports.rs:
    a FIFO queue of i32 inputs consumed from the front and an output list
    that grows at the back. The stdin/stdout `Port` is not part of this
    model. */
module IntcodePorts {
  import opened Common
  import opened IntcodeErrors

  /** The two queues of a port as a value. */
  datatype Queues = Queues(input: seq<int>, output: seq<int>)

  /** The queue contents after `input(i)`. */
  function Pushed(q: Queues, i: int): (r: Queues)
    ensures r.input == q.input + [i] && r.output == q.output
  {
    q.(input := q.input + [i])
  }

  /** What `read_int` returns and the queues it leaves behind. */
  function Read(q: Queues): (r: (Result<int, ErrorKind>, Queues))
    ensures r.0.Ok? <==> |q.input| > 0
    ensures r.0.Ok? ==> [r.0.value] + r.1.input == q.input
    ensures r.0.Err? ==> r.0.error == IOError(OutOfStaticInputError) && r.1 == q
    ensures r.1.output == q.output
  {
    if |q.input| > 0 then (Ok(q.input[0]), q.(input := q.input[1..]))
    else (Err(IOError(OutOfStaticInputError)), q)
  }

  /** The queue contents after `write_int(i)`, which never fails. */
  function Written(q: Queues, i: int): (r: Queues)
    ensures r.output == q.output + [i] && r.input == q.input
  {
    q.(output := q.output + [i])
  }

  /** `n` reads in a row: the values (or errors) they return, in order. */
  function ReadMany(q: Queues, n: nat): (r: (seq<Result<int, ErrorKind>>, Queues))
    ensures |r.0| == n
    decreases n
  {
    if n == 0 then ([], q)
    else
      var first := Read(q);
      var more := ReadMany(first.1, n - 1);
      ([first.0] + more.0, more.1)
  }

  /** The `Ok` wrapper applied to each value. */
  function Oks(xs: seq<int>): (r: seq<Result<int, ErrorKind>>)
    ensures |r| == |xs| && forall i :: 0 <= i < |xs| ==> r[i] == Ok(xs[i])
  {
    if xs == [] then [] else [Ok(xs[0])] + Oks(xs[1..])
  }

  /** First in, first out: reading `|front|` times from a queue that starts
      with `front` returns exactly `front` in order and leaves the rest. */
  lemma {:induction false} ReadsInOrder(front: seq<int>, rest: seq<int>, output: seq<int>)
    ensures ReadMany(Queues(front + rest, output), |front|) == (Oks(front), Queues(rest, output))
    decreases |front|
  {
    if front != [] {
      var q := Queues(front + rest, output);
      assert (front + rest)[1..] == front[1..] + rest;
      assert Read(q) == (Ok(front[0]), Queues(front[1..] + rest, output));
      ReadsInOrder(front[1..], rest, output);
      assert ReadMany(q, |front|) == ([Ok(front[0])] + Oks(front[1..]), Queues(rest, output));
    } else {
      assert front + rest == rest;
    }
  }

  /** Values fed with `input` come back out of `read_int` in the order
      they were fed, after whatever was queued before them. */
  lemma {:induction false} FedValuesReadBack(q: Queues, i: int)
    ensures ReadMany(Pushed(q, i), |q.input| + 1) == (Oks(q.input + [i]), Queues([], q.output))
  {
    assert Pushed(q, i) == Queues((q.input + [i]) + [], q.output);
    ReadsInOrder(q.input + [i], [], q.output);
  }

  /** Once the queue is empty every further read fails and changes nothing. */
  lemma {:induction false} ExhaustedStaysExhausted(output: seq<int>, n: nat)
    ensures ReadMany(Queues([], output), n).1 == Queues([], output)
    ensures forall k :: 0 <= k < n ==> ReadMany(Queues([], output), n).0[k] == Err(IOError(OutOfStaticInputError))
    decreases n
  {
    if n > 0 {
      ExhaustedStaysExhausted(output, n - 1);
    }
  }

  class VecPort {
    var input: seq<int>
    var output: seq<int>

    /** Both queues hold i32 values. */
    ghost predicate Valid()
      reads this
    {
      AllI32(input) && AllI32(output)
    }

    function State(): (r: Queues)
      reads this
      ensures r.input == input && r.output == output
    {
      Queues(input, output)
    }

    /** `VecPort::new`: both queues empty. */
    constructor New()
      ensures Valid() && input == [] && output == []
    {
      input := [];
      output := [];
    }

    /** `input(i)`: queues `i` behind the inputs already waiting. */
    method Input(i: int)
      requires Valid() && IsI32(i)
      modifies this
      ensures Valid() && State() == Pushed(old(State()), i)
    {
      input := input + [i];
    }

    /** `read_int`: removes and returns the front input, or fails with
        `OutOfStaticInputError` when none is left. */
    method ReadInt() returns (r: Result<int, ErrorKind>)
      requires Valid()
      modifies this
      ensures Valid() && (r, State()) == Read(old(State()))
      ensures r.Ok? ==> IsI32(r.value)
    {
      if |input| != 0 {
        r := Ok(input[0]);
        input := input[1..];
      } else {
        r := Err(IOError(OutOfStaticInputError));
      }
    }

    /** `write_int`: appends to the output list; it always succeeds. */
    method WriteInt(i: int) returns (r: Result<(), ErrorKind>)
      requires Valid() && IsI32(i)
      modifies this
      ensures Valid() && State() == Written(old(State()), i)
      ensures r == Ok(())
    {
      output := output + [i];
      r := Ok(());
    }

    /** `into_output` / `output`: everything written, in write order. */
    function IntoOutput(): (r: seq<int>)
      reads this
      requires Valid()
      ensures r == State().output && AllI32(r)
    {
      output
    }
  }
}
