/** The fixed-width integers of the C++ code, with their conversions written out. */
module MachineInts {

  const UINT32_LIMIT: int := 0x1_0000_0000

  /** `unsigned int` on the targeted platforms. */
  newtype uint32 = x: int | 0 <= x < 0x1_0000_0000

  /** `int` / `sf::Int32` on the targeted platforms. */
  newtype int32 = x: int | -0x8000_0000 <= x < 0x8000_0000

  /** The usual arithmetic conversion of an `int` value to `unsigned int`:
      the unique unsigned value congruent to `x` modulo 2^32. */
  function ToUnsigned(x: int): (r: uint32)
    ensures (r as int - x) % UINT32_LIMIT == 0
    ensures 0 <= x < UINT32_LIMIT ==> r as int == x
    ensures -UINT32_LIMIT <= x < 0 ==> r as int == x + UINT32_LIMIT
  {
    (x % UINT32_LIMIT) as uint32
  }
}
