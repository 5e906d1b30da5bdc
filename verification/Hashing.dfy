// Hash codes of the two hash functions, both of which the model takes as parameters.
module Hashing {
  // A uint64.
  newtype Hash = h: int | 0 <= h < 0x1_0000_0000_0000_0000

  // xxhash of a string: any function.
  type StringHash = string -> Hash
}
