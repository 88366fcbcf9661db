/** The machine types the sources use, as ranges of `int`. `char` is an unsigned byte. */
module Bytes {
  type byte = x: int | 0 <= x < 256
  type uint16 = x: int | 0 <= x < 65536
  type bytes = seq<byte>

  datatype Option<+T> = None | Some(value: T)

  /** Concatenation of a list of byte strings, in order. */
  function Flatten(ps: seq<bytes>): bytes {
    if ps == [] then [] else ps[0] + Flatten(ps[1..])
  }
}
