/** Bytes, the 32-bit arithmetic of the driver, and what its modules share about sequences. */
module CTypes {
  type Byte = x: int | 0 <= x < 256

  const U32: nat := 0x1_0000_0000

  /** A C `unsigned` value. */
  type Unsigned = x: nat | x < U32

  /** Subtraction of C `unsigned` values: the result wraps modulo 2^32. */
  function SubU32(a: nat, b: nat): (r: nat)
    ensures r < U32
    ensures b <= a < U32 ==> r == a - b
    ensures a < b <= a + U32 && a < U32 ==> r == a - b + U32
  {
    (a - b) % U32
  }

  /** Addition of C `unsigned` values. */
  function AddU32(a: nat, b: nat): (r: nat)
    ensures r < U32
    ensures a + b < U32 ==> r == a + b
  {
    (a + b) % U32
  }

  function Min(a: nat, b: nat): nat {
    if a <= b then a else b
  }

  datatype Option<+T> = None | Some(value: T)

  lemma Regroup<T>(a: seq<T>, b: seq<T>, c: seq<T>)
    ensures a + (b + c) == (a + b) + c
  {
  }
}
