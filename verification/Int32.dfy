/** 32-bit signed integers. */
module Int32 {
  const INT32_MAX: int := 0x7FFF_FFFF

  /** The value of a 32-bit signed integer after wrap-around. */
  function Wrap32(x: int): int {
    var m := x % 0x1_0000_0000;
    if m <= INT32_MAX then m else m - 0x1_0000_0000
  }
}
