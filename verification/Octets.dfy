/** Bytes, as terminals and embeddings hold them. */
module Octets {

  type Byte = b: int | 0 <= b < 256
}
