/** Bytes as the buffers hold them. */
module Octets {
  newtype byte = x: int | 0 <= x < 256
}
