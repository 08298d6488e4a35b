/** Byte strings, as handed to and returned by the cryptographic provider. */
module Octets {

  newtype byte = x: int | 0 <= x < 256

  type Bytes = seq<byte>
}
