/** The range of Swift's 64-bit `Int`, whose arithmetic traps on overflow. */
module SwiftInt {
  const IntMin: int := -0x8000_0000_0000_0000
  const IntMax: int := 0x7FFF_FFFF_FFFF_FFFF

  predicate InInt(x: int)
  {
    IntMin <= x <= IntMax
  }
}
