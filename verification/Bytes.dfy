/** Byte strings. */
module Bytes {

  newtype byte = x: int | 0 <= x < 256

  type Bytes = seq<byte>

  function Flatten(chunks: seq<Bytes>): (all: Bytes)
    ensures (exists i :: 0 <= i < |chunks| && chunks[i] != []) ==> all != []
  {
    if chunks == [] then [] else chunks[0] + Flatten(chunks[1..])
  }
}
