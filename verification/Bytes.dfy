/** Eight- and sixteen-bit values. */
module Bytes {
  type byte = n: nat | n < 0x100
  type word = n: nat | n < 0x1_0000
}
