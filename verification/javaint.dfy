/** Java's 32-bit `int`: its range and two's-complement wrap-around. */
module JavaInt {

  const MinInt: int := -0x8000_0000
  const MaxInt: int := 0x7fff_ffff
  /** 2^32, the period of `int` arithmetic. */
  const Modulus: int := 0x1_0000_0000

  type Int32 = x: int | MinInt <= x <= MaxInt

  /** The value Java's `int` arithmetic produces for the mathematical result `x`. */
  function Wrap(x: int): (r: Int32)
    ensures (x - r) % Modulus == 0
    ensures MinInt <= x <= MaxInt ==> r == x
    ensures MaxInt < x <= MaxInt + Modulus ==> r == x - Modulus
  {
    (x - MinInt) % Modulus + MinInt
  }
}
