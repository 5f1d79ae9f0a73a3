/** Machine integers, nil-able values and call outcomes shared by every module. */
module Basics {

  const TWO_TO_THE_32: int := 0x1_0000_0000
  const TWO_TO_THE_63: int := 0x8000_0000_0000_0000
  const TWO_TO_THE_64: int := 0x1_0000_0000_0000_0000

  type uint32 = x: int | 0 <= x < TWO_TO_THE_32
  type uint64 = x: int | 0 <= x < TWO_TO_THE_64

  /** A pointer to a big integer that may still be nil. */
  datatype Option<+T> = None | Some(value: T)

  /** What a call comes back with. `Panicked` is a nil dereference or a division by zero. */
  datatype Outcome<+T, +E> = Returned(value: T) | Failed(error: E) | Panicked

  /** Unsigned 64-bit subtraction, which wraps. */
  function Sub64(a: uint64, b: uint64): uint64 {
    (a - b) % TWO_TO_THE_64
  }

  /** The low 64 bits of a big integer read as a signed number. */
  function Int64(x: int): int {
    (x + TWO_TO_THE_63) % TWO_TO_THE_64 - TWO_TO_THE_63
  }

  /** The 64-bit reading keeps the low 64 bits, and loses nothing exactly on the signed 64-bit range. */
  lemma Int64Exact(x: int)
    ensures -TWO_TO_THE_63 <= Int64(x) < TWO_TO_THE_63 && Int64(x) % TWO_TO_THE_64 == x % TWO_TO_THE_64
    ensures Int64(x) == x <==> -TWO_TO_THE_63 <= x < TWO_TO_THE_63
  {
  }

  function Abs(x: int): nat {
    if x < 0 then -x else x
  }

  function Min(a: int, b: int): int {
    if a < b then a else b
  }

  function Max(a: int, b: int): int {
    if a < b then b else a
  }

  /** Conversion of a float to an integer: the fraction is dropped, toward zero. */
  function Truncate(x: real): int {
    if x < 0.0 then -((-x).Floor) else x.Floor
  }
}
