/** Go's fixed-width integers as they reach the database layer.
    `int32(x)` in Go keeps the low 32 bits of x as a two's-complement value;
    the model writes that wrap-around out. */
module Ints {

  const Two32: int := 0x1_0000_0000
  const MinInt32: int := -0x8000_0000
  const MaxInt32: int := 0x7fff_ffff

  predicate InInt32(x: int) { MinInt32 <= x <= MaxInt32 }

  /** Go's conversion `int32(x)` of an arbitrary integer. */
  function ToInt32(x: int): (r: int)
    ensures InInt32(r)
    ensures (r - x) % Two32 == 0
  {
    var m := x % Two32;
    if m <= MaxInt32 then m else m - Two32
  }

  /** A value that already fits is kept exactly. */
  lemma ToInt32Exact(x: int)
    ensures InInt32(x) ==> ToInt32(x) == x
  {
    if MinInt32 <= x < 0 {
      assert x % Two32 == x + Two32;
    }
  }

  const Two64: int := 0x1_0000_0000_0000_0000
  const MinInt64: int := -0x8000_0000_0000_0000
  const MaxInt64: int := 0x7fff_ffff_ffff_ffff

  predicate InInt64(x: int) { MinInt64 <= x <= MaxInt64 }

  /** Go's `int` arithmetic on a 64-bit platform: the low 64 bits of x as a
      two's-complement value. */
  function ToInt64(x: int): (r: int)
    ensures InInt64(r)
    ensures (r - x) % Two64 == 0
    ensures InInt64(x) ==> r == x
  {
    var m := x % Two64;
    if m <= MaxInt64 then m else m - Two64
  }
}
