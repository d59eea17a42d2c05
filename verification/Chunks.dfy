/** A buffer moved in chunks of a fixed size, the last one possibly shorter (backend.go, cmd/jaccld/transport.go). */
module Chunks {
  import opened Bytes

  /** Number of chunks in len bytes: the trips of the source's chunk loop. */
  function ChunkCount(len: nat, chunk: nat): (k: nat)
    requires chunk > 0
    ensures Off(k, chunk) >= len && (k > 0 ==> Off(k - 1, chunk) < len)
  {
    if len == 0 then 0
    else
      var k := ChunkCount(if len > chunk then len - chunk else 0, chunk);
      ChunkShift(k, chunk);
      k + 1
  }

  lemma ChunkShift(k: nat, chunk: nat)
    ensures Off(k + 1, chunk) == Off(k, chunk) + chunk
  {
  }

  /** Chunk t of src: src[off:off+n] with off = t*chunk and n = min(chunk, len-off). */
  function Chunk(src: seq<byte>, chunk: nat, t: nat): seq<byte> {
    var lo := Least(Off(t, chunk), |src|);
    src[lo..Least(lo + chunk, |src|)]
  }

  lemma ChunkBelow(len: nat, chunk: nat, t: nat)
    requires chunk > 0 && t < ChunkCount(len, chunk)
    ensures Off(t, chunk) < len
  {
    OffMonotone(t, ChunkCount(len, chunk) - 1, chunk);
  }
}
