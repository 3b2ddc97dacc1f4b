/** Bytes and the two control bytes the text tools care about. */
module Bytes {
  newtype Byte = x: int | 0 <= x < 256

  const LF: Byte := 10
  const CR: Byte := 13

  predicate NoLF(t: seq<Byte>) {
    forall i :: 0 <= i < |t| ==> t[i] != LF
  }
}
