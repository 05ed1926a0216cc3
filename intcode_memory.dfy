/** The fixed-size Intcode memory of advent_common/src/intcode/memory.rs:
    a boxed array of 256 signed 64-bit cells. Reads and writes are bounds
    checked and never grow the buffer. */
module IntcodeMemory {
  import opened Common

  /** Number of cells; the buffer is allocated once at this size. */
  const SIZE: nat := 256

  class Memory {
    /** The boxed array. The box itself is never replaced, only its cells. */
    const buf: array<int>

    ghost predicate Valid()
      reads this, buf
    {
      buf.Length == SIZE && forall i :: 0 <= i < SIZE ==> IsI64(buf[i])
    }

    /** `as_inner` / `iter`: the cells in address order. */
    function Cells(): (r: seq<int>)
      reads this, buf
      requires Valid()
      ensures |r| == SIZE
      ensures forall i :: 0 <= i < SIZE ==> r[i] == buf[i] && IsI64(r[i])
    {
      buf[..]
    }

    /** `Memory::new`: 256 zeros. */
    constructor New()
      ensures Valid() && fresh(buf)
      ensures Cells() == seq(SIZE, _ => 0)
    {
      buf := new int[SIZE](_ => 0);
    }

    /** `zero`: clears every cell in place, one address after another. */
    method Zero()
      requires Valid()
      modifies buf
      ensures Valid()
      ensures Cells() == seq(SIZE, _ => 0)
    {
      var address := 0;
      while address < SIZE
        invariant 0 <= address <= SIZE
        invariant forall i :: 0 <= i < address ==> buf[i] == 0
        invariant forall i :: address <= i < SIZE ==> buf[i] == old(buf[i])
      {
        buf[address] := 0;
        address := address + 1;
      }
    }

    /** `load`: the cell at `idx`, or `None` past the end of the buffer. */
    function Load(idx: nat): (r: Option<int>)
      reads this, buf
      requires Valid()
      ensures r.Some? <==> idx < SIZE
      ensures r.Some? ==> r.value == Cells()[idx] && IsI64(r.value)
    {
      if idx < buf.Length then Some(buf[idx]) else None
    }

    /** `load_mut`: the writable slot at `idx`, as its address, or `None`
        past the end of the buffer. */
    function LoadMut(idx: nat): (r: Option<nat>)
      reads this, buf
      requires Valid()
      ensures r.Some? <==> idx < SIZE
      ensures r.Some? ==> r.value == idx && Load(r.value).Some?
    {
      if idx < buf.Length then Some(idx) else None
    }

    /** A write through the slot `load_mut` handed out. */
    method Set(slot: nat, value: int)
      requires Valid() && LoadMut(slot).Some? && IsI64(value)
      modifies buf
      ensures Valid()
      ensures Cells() == old(Cells())[slot := value]
      ensures Load(slot) == Some(value)
    {
      buf[slot] := value;
    }
  }
}
