/** Small shared types, and numbers as bytes. */
module Wrappers {
  datatype Option<+T> = None | Some(value: T)

  type Byte = bv8

  function ByteOf(n: nat): Byte { (n % 256) as Byte }

  /** A number shifted right by `i` bytes. */
  function ShiftBytes(n: nat, i: nat): nat {
    if i == 0 then n else ShiftBytes(n / 256, i - 1)
  }

  /** Of a number below 256 nothing is left after one byte. */
  lemma {:induction false} NoByte(n: nat, k: nat)
    requires n < 256 && k > 0
    ensures ShiftBytes(n, k) == 0
    decreases k
  {
    if k > 1 {
      NoByte(0, k - 1);
    }
  }

  /** A number as `k` bytes, most significant first. */
  function BytesOf(n: nat, k: nat): (b: seq<Byte>)
    ensures |b| == k
  {
    seq(k, i requires 0 <= i < k => ByteOf(ShiftBytes(n, k - 1 - i)))
  }
}
