/** Types shared by every component: optional and failing results, byte strings,
    the chunk key of the cache, and the limits of the source's integer types. */
module Core {
  datatype Option<+T> = None | Some(value: T)

  datatype Result<+T> = Ok(value: T) | Err {
    predicate IsFailure() {
      Err?
    }

    function PropagateFailure<U>(): Result<U>
      requires Err?
    {
      Err
    }

    function Extract(): T
      requires Ok?
    {
      value
    }
  }

  type byte = x: int | 0 <= x < 256
  type Bytes = seq<byte>

  const U16_LIMIT: nat := 0x1_0000
  const U32_LIMIT: nat := 0x1_0000_0000
  const U64_LIMIT: nat := 0x1_0000_0000_0000_0000
  const U64_MAX: nat := U64_LIMIT - 1

  type u32 = x: int | 0 <= x < 0x1_0000_0000
  type u64 = x: int | 0 <= x < 0x1_0000_0000_0000_0000

  // A chunk of a blob: the blob lives in a mount, the offset is a multiple of the chunk size.
  datatype ChunkKey = ChunkKey(mount: string, blob: string, offset: nat)

  function Min(a: int, b: int): int {
    if a <= b then a else b
  }

  function Max(a: int, b: int): int {
    if a >= b then a else b
  }

  lemma Grow(a: nat, b: nat, cs: nat)
    requires a < b
    ensures a * cs + cs <= b * cs
  {
    assert b * cs == a * cs + (b - a) * cs;
    assert (b - a) * cs == cs + (b - a - 1) * cs;
  }

  // Quotient and remainder are unique.
  lemma DivUnique(x: nat, q: nat, r: nat, cs: nat)
    requires cs > 0 && x == q * cs + r && r < cs
    ensures x / cs == q && x % cs == r
  {
    var d := x / cs;
    assert x == d * cs + x % cs;
    if d < q {
      Grow(d, q, cs);
    } else if q < d {
      Grow(q, d, cs);
    }
  }

  // saturating_add(1) on a u64
  function SaturatingInc(v: u64): (r: u64)
    ensures v < U64_MAX ==> r == v + 1
    ensures v == U64_MAX ==> r == v
  {
    if v == U64_MAX then v else v + 1
  }
}
