/** Names and small notions that several components use. */
module Shared {
  import opened Bytes

  type Peer = string
  type ChunkId = bytes

  function Min(a: int, b: int): int { if a < b then a else b }

  predicate Distinct<T(==)>(s: seq<T>) {
    forall i, j :: 0 <= i < j < |s| ==> s[i] != s[j]
  }
}
