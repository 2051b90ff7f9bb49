/** The fixed-width Go integer types the core uses, as ranges of the unbounded `int`. */
module GoTypes {

  const Two8: int := 0x100
  const Two32: int := 0x1_0000_0000

  /** Range of Go's `int` on a 64-bit platform. */
  const MinInt: int := -0x8000_0000_0000_0000
  const MaxInt: int := 0x7FFF_FFFF_FFFF_FFFF

  type byte = x: int | 0 <= x < Two8
  type uint8 = x: int | 0 <= x < Two8
  type uint32 = x: int | 0 <= x < Two32

  /** Go's `uint32(n)` conversion of a non-negative length: the low 32 bits. */
  function ToUint32(n: nat): (r: uint32)
    ensures n < Two32 ==> r == n
    ensures (r - n) % Two32 == 0
  {
    n % Two32
  }
}
