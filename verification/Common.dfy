/** Types shared by every component of the model. */
module Common {
  datatype Option<+T> = None | Some(value: T)

  /** An octet.  A subset type of `int`, so that sums need no conversions. */
  type byte = b: int | 0 <= b < 256

  /** A 16-bit and a 32-bit unsigned integer. */
  type uint16 = n: int | 0 <= n < 0x1_0000
  type uint32 = n: int | 0 <= n < 0x1_0000_0000
  type uint64 = n: int | 0 <= n < 0x1_0000_0000_0000_0000
}
