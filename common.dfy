/** Small value types shared by the adapter-discovery and device-session modules. */
module Common {

  /** A value that may be absent: a registry value that could not be read,
      an optional name filter (a C `const char *` that may be NULL). */
  datatype Option<+T> = None | Some(value: T)

  /** An unsigned 32-bit registry DWORD. */
  type DWord = x: int | 0 <= x < 0x1_0000_0000

  /** A byte of an Ethernet frame. */
  type Byte = bv8
}
