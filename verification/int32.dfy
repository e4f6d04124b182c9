/** Java's 32-bit `int`: its range and the two's-complement wrap-around that
    `IntStream.sum` and `+` silently apply when a result leaves that range. */
module Int32 {

  const INT_MIN: int := -0x8000_0000
  const INT_MAX: int := 0x7fff_ffff
  const MODULUS: int := 0x1_0000_0000

  /** `x` is a value a Java `int` can hold. */
  predicate IsInt32(x: int) {
    INT_MIN <= x <= INT_MAX
  }

  /** The Java `int` that an exact integer result `x` becomes: the unique value in
      range that is congruent to `x` modulo 2^32. */
  function Wrap32(x: int): (r: int)
    ensures IsInt32(r)
    ensures (x - r) % MODULUS == 0
    ensures IsInt32(x) ==> r == x
  {
    (x - INT_MIN) % MODULUS + INT_MIN
  }
}
