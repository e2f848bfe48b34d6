/** The unit of files and request bodies. */
module Bytes {
  newtype byte = x: int | 0 <= x < 256
}
