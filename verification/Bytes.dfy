/** Bytes, and the range of the sources' 32-bit words. */
module Bytes {
  type Byte = x: nat | x < 0x100

  const UINT32: nat := 0x1_0000_0000
}
