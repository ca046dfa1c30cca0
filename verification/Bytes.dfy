/** Octets, as the service reads and writes them. */
module Bytes {
  newtype byte = x: int | 0 <= x < 256
}
