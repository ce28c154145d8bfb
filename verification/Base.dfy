/** Definitions shared by every other module. */
module Base {

  datatype Option<+T> = None | Some(value: T)

  /** The number of values of a 64-bit unsigned integer. */
  const TWO64: nat := 0x1_0000_0000_0000_0000

  /** Conversion of a C integer to `uint64_t`: the value modulo 2^64. */
  function U64(x: int): (r: nat)
    ensures r < TWO64
  {
    x % TWO64
  }
}
