/** Bytes, as the wire form and the text reader see them. */
module Bytes {
  type Byte = b: int | 0 <= b < 256
}
