/** Bytes and lines, as files, streams and frames carry them. */
module Bytes {
  type Byte = b: int | 0 <= b < 256

  type Line = seq<Byte>

  const NEWLINE: Byte := 10
}
