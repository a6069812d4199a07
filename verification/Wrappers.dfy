/** Fixed-width integers, optional values and the few helpers the other modules share. */
module Wrappers {

  const U16: nat := 0x1_0000
  const U32: nat := 0x1_0000_0000
  const U64: nat := 0x1_0000_0000_0000_0000

  newtype byte = x: int | 0 <= x < 256
  type u16 = x: nat | x < U16
  type u32 = x: nat | x < U32
  type u64 = x: nat | x < U64

  datatype Option<+T> = None | Some(value: T)

  /** No two places hold the same. */
  predicate Distinct<T(==)>(s: seq<T>) {
    forall i, j :: 0 <= i < j < |s| ==> s[i] != s[j]
  }

  function Max(a: int, b: int): int {
    if a < b then b else a
  }

  function Min(a: int, b: int): int {
    if a < b then a else b
  }

  /** `a - b` on `u64` in a release build: it wraps. */
  function WrappingSub(a: u64, b: u64): u64 {
    (a - b) % U64
  }
}
