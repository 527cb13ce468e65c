/** Bytes, of which frames, log text and addresses are made. */
module Bytes {

  newtype Byte = b: int | 0 <= b < 256
}
