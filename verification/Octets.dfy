/** Byte strings, as archives, members and HTTP bodies hold them. */
module Octets {
  type Byte = b: int | 0 <= b < 256
  type Bytes = seq<Byte>
}
