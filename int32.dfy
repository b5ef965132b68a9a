/** The C# `int` type: 32-bit two's complement, with unchecked (wrapping) addition. */
module Int32 {

  const MinValue: int := -0x8000_0000
  const MaxValue: int := 0x7fff_ffff

  /** The values a C# `int` can hold. */
  type i32 = x: int | MinValue <= x <= MaxValue

  /** `a + b` in an unchecked C# context: the sum reduced modulo 2^32 into the `int` range. */
  function WrapAdd(a: i32, b: i32): (r: i32)
    ensures (a + b - r) % 0x1_0000_0000 == 0
    ensures MinValue <= a + b <= MaxValue ==> r == a + b
  {
    var s := a + b;
    if s > MaxValue then s - 0x1_0000_0000
    else if s < MinValue then s + 0x1_0000_0000
    else s
  }
}
