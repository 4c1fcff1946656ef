/** Fixed-width integer types of the firmware, and the Option wrapper. */
module Words {

  /** Number of distinct values of a uint32_t. */
  const Wrap32: int := 0x1_0000_0000

  type u8 = x: int | 0 <= x < 0x100
  type u16 = x: int | 0 <= x < 0x1_0000
  type u32 = x: int | 0 <= x < 0x1_0000_0000

  datatype Option<+T> = None | Some(value: T)
}
