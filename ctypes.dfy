/**
  Fixed-width C integer types used at the backend's interface, and a
  plain Option for results that may be absent.
 */
module CTypes {

  type int16 = x: int | -0x8000 <= x < 0x8000
  type uint16 = x: int | 0 <= x < 0x1_0000
  type uint32 = x: int | 0 <= x < 0x1_0000_0000
  type uint64 = x: int | 0 <= x < 0x1_0000_0000_0000_0000

  /** One byte of file contents (`uint8_t`). */
  type byte = bv8

  datatype Option<T> = None | Some(value: T)
}
