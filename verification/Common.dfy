/** Small definitions every other module uses: optional values and unsigned 64-bit time. */
module Common {

  /** A pointer-like value: `None` is the source's NULL. */
  datatype Option<+T> = None | Some(value: T)

  /** `uint64_t`, the type of every clock and tick-counter reading. */
  type uint64 = n: int | 0 <= n < 0x1_0000_0000_0000_0000

  /** `unsigned int` */
  type uint32 = n: int | 0 <= n < 0x1_0000_0000

  /** Unsigned 64-bit subtraction: it wraps around when `b` is the larger operand. */
  function Sub64(a: uint64, b: uint64): uint64 {
    if b <= a then a - b else a - b + 0x1_0000_0000_0000_0000
  }
}
