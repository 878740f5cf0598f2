/** Bytes, as they come from files, sockets and pipes. */
module Bytes {
  type Byte = x: nat | x < 256
}
