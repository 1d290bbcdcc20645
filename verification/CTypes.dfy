/** The C machine types the recovery updater computes with. */
module CTypes {
  type byte = b: int | 0 <= b < 0x100
  type cint = x: int | -0x8000_0000 <= x < 0x8000_0000
  type uint32 = x: int | 0 <= x < 0x1_0000_0000

  const INT_MAX := 0x7fff_ffff
  const ALPHABET_LEN := 256

  datatype Option<+T> = None | Some(value: T)

  /** The cast `(int)` applied to a `size_t`: drop multiples of 2^32 until the value fits. */
  function CastToInt(n: int): (r: cint)
    requires -0x8000_0000 <= n
    ensures r <= n
    ensures n <= INT_MAX ==> r == n
    ensures (n - r) % 0x1_0000_0000 == 0
  {
    if n <= INT_MAX then n else CastToInt(n - 0x1_0000_0000)
  }

  function Max(a: int, b: int): int {
    if a > b then a else b
  }
}
