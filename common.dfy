/** Shared value types: optional values, results, and the machine integer
    widths the Rust sources use (i32, i64, u32, usize). */
module Common {

  datatype Option<+T> = None | Some(value: T)

  /** A Rust `Result`: `Ok(value)` or `Err(error)`. */
  datatype Result<+T, +E> = Ok(value: T) | Err(error: E) {
    predicate IsFailure() { Err? }

    function PropagateFailure<U>(): Result<U, E>
      requires Err?
    {
      Err(error)
    }

    function Extract(): T
      requires Ok?
    {
      value
    }
  }

  const I32_MIN: int := -0x8000_0000
  const I32_MAX: int := 0x7fff_ffff
  const I64_MIN: int := -0x8000_0000_0000_0000
  const I64_MAX: int := 0x7fff_ffff_ffff_ffff
  const U32_MAX: int := 0xffff_ffff
  /** usize on a 64-bit target. */
  const USIZE_MODULUS: int := 0x1_0000_0000_0000_0000

  predicate IsI32(x: int) { I32_MIN <= x <= I32_MAX }
  predicate IsI64(x: int) { I64_MIN <= x <= I64_MAX }

  predicate AllI32(s: seq<int>) { forall i :: 0 <= i < |s| ==> IsI32(s[i]) }

  /** Rust's `x as usize` for a signed 32-bit `x`: sign extension, so a
      negative value becomes `x + 2^64`. */
  function I32AsUsize(x: int): (r: nat)
    requires IsI32(x)
    ensures 0 <= x ==> r == x
    ensures x < 0 ==> r >= USIZE_MODULUS + I32_MIN
  {
    if x < 0 then x + USIZE_MODULUS else x
  }

  /** A `Vec` of a non-zero-sized type never holds more than `isize::MAX`
      elements. */
  predicate FitsVec(n: nat) { n <= I64_MAX }

  function Min(a: int, b: int): int { if a <= b then a else b }
  function Max(a: int, b: int): int { if a >= b then a else b }
  function Abs(a: int): nat { if a < 0 then -a else a }

  /** `for v in m.values_mut() { *v = f(v) }`: every value updated in
      place, one key at a time; the keys stay. */
  method UpdateEach<K, V>(m: map<K, V>, f: V -> V) returns (r: map<K, V>)
    ensures r.Keys == m.Keys && forall k :: k in m ==> r[k] == f(m[k])
  {
    r := m;
    var todo := m.Keys;
    while todo != {}
      invariant todo <= m.Keys && r.Keys == m.Keys
      invariant forall k :: k in todo ==> r[k] == m[k]
      invariant forall k :: k in m && k !in todo ==> r[k] == f(m[k])
      decreases |todo|
    {
      var k :| k in todo;
      r := r[k := f(r[k])];
      todo := todo - {k};
    }
  }
}
