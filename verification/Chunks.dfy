/** Content, chunks and their hashes. */
module Chunks {
  import opened Prelude

  newtype byte = b: int | 0 <= b < 256

  type Bytes = seq<byte>

  /** blake3 as an ideal hash: a digest is told apart by nothing but what was hashed. */
  datatype Digest = Digest(preimage: Bytes)

  /** The hash of a whole file. */
  function ContentHash(content: Bytes): Digest {
    Digest(content)
  }

  /** `chunk_hash`: the prefix and then the bytes. */
  function ChunkHash(prefix: Bytes, chunk: Bytes): Digest {
    Digest(prefix + chunk)
  }

  predicate IsChunkHash(prefix: Bytes, hash: Digest) {
    IsPrefix(prefix, hash.preimage)
  }

  /** The one byte string behind a chunk hash. */
  function ChunkBytes(prefix: Bytes, hash: Digest): Bytes {
    if |prefix| <= |hash.preimage| then hash.preimage[|prefix|..] else []
  }

  lemma {:induction false} ChunkBytesOfHash(prefix: Bytes, chunk: Bytes)
    ensures IsChunkHash(prefix, ChunkHash(prefix, chunk))
    ensures ChunkBytes(prefix, ChunkHash(prefix, chunk)) == chunk
  {
    assert (prefix + chunk)[|prefix|..] == chunk;
  }

  lemma {:induction false} HashOfChunkBytes(prefix: Bytes, hash: Digest)
    requires IsChunkHash(prefix, hash)
    ensures ChunkHash(prefix, ChunkBytes(prefix, hash)) == hash
  {
  }

  function HashAll(prefix: Bytes, chunks: seq<Bytes>): (hashes: seq<Digest>)
    ensures |hashes| == |chunks|
    ensures forall i :: 0 <= i < |chunks| ==> hashes[i] == ChunkHash(prefix, chunks[i])
  {
    seq(|chunks|, i requires 0 <= i < |chunks| => ChunkHash(prefix, chunks[i]))
  }

  function BytesOfAll(prefix: Bytes, hashes: seq<Digest>): (chunks: seq<Bytes>)
    ensures |chunks| == |hashes|
    ensures forall i :: 0 <= i < |hashes| ==> chunks[i] == ChunkBytes(prefix, hashes[i])
  {
    seq(|hashes|, i requires 0 <= i < |hashes| => ChunkBytes(prefix, hashes[i]))
  }

  /** The content a list of chunk hashes stands for. */
  function ContentOf(prefix: Bytes, hashes: seq<Digest>): Bytes {
    Concat(BytesOfAll(prefix, hashes))
  }

  /** Splitting in any way, hashing, and putting the chunks back gives the content. */
  lemma {:induction false} ContentOfHashAll(prefix: Bytes, chunks: seq<Bytes>)
    ensures ContentOf(prefix, HashAll(prefix, chunks)) == Concat(chunks)
  {
    forall i | 0 <= i < |chunks| ensures ChunkBytes(prefix, ChunkHash(prefix, chunks[i])) == chunks[i] {
      ChunkBytesOfHash(prefix, chunks[i]);
    }
    assert BytesOfAll(prefix, HashAll(prefix, chunks)) == chunks;
  }

  lemma {:induction false} ContentOfSnoc(prefix: Bytes, hashes: seq<Digest>, hash: Digest)
    ensures ContentOf(prefix, hashes + [hash]) == ContentOf(prefix, hashes) + ChunkBytes(prefix, hash)
  {
    assert BytesOfAll(prefix, hashes + [hash]) == BytesOfAll(prefix, hashes) + [ChunkBytes(prefix, hash)];
    ConcatSnoc(BytesOfAll(prefix, hashes), ChunkBytes(prefix, hash));
  }
}
