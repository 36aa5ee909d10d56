/** What several modules share: optional values and 64-bit words as numbers. */
module Common {

  datatype Option<+T> = None | Some(value: T)

  const MOD64: int := 0x1_0000_0000_0000_0000

  /** An unsigned 64-bit word; operations that wrap around say so. */
  type U64 = n: int | 0 <= n < MOD64
}
