/**
 * Virtual time is an `unsigned long long` count of ticks.  Every addition and
 * subtraction of it in the source is done in unsigned 64-bit arithmetic, so
 * the wrap-around is written out here.
 */
module Ticks {

  const TWO_TO_64: int := 0x1_0000_0000_0000_0000

  /** The values of a C++ `unsigned long long`. */
  type U64 = x: int | 0 <= x < TWO_TO_64

  /** `a + b` computed in unsigned 64 bits. */
  function AddU64(a: U64, b: U64): (r: U64)
    ensures a + b < TWO_TO_64 ==> r == a + b
    ensures a + b >= TWO_TO_64 ==> r == a + b - TWO_TO_64
  {
    if a + b < TWO_TO_64 then a + b else a + b - TWO_TO_64
  }

  /** `a - b` computed in unsigned 64 bits: the unique U64 that added to `b` gives `a`. */
  function SubU64(a: U64, b: U64): (r: U64)
    ensures AddU64(r, b) == a
  {
    if a >= b then a - b else a - b + TWO_TO_64
  }
}
