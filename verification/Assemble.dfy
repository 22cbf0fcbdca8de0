/**
 Putting a pulled file together: chunks already on disk are found by hashing the old file on
 the chunk grid, the rest come from the server, and the new file replaces the old one by a
 rename. Reads may be short; anything may fail.
 */
module Assemble {
  import opened Prelude
  import opened Chunks
  import opened Paths
  import opened Planning

  datatype Node = LocalFile(bytes: Bytes, mtime: int) | LocalLink(target: string)

  type Tree = map<Components, Node>

  const TMP_SUFFIX := ".aeordb-pull.tmp"

  /** The file a pulled file is first written to. */
  function TmpPath(path: Components): Components {
    if path == [] then [TMP_SUFFIX] else path[..|path| - 1] + [path[|path| - 1] + TMP_SUFFIX]
  }

  lemma {:induction false} TmpPathDiffers(path: Components)
    ensures TmpPath(path) != path
  {
    if path != [] {
      assert |path[|path| - 1] + TMP_SUFFIX| > |path[|path| - 1]|;
      assert TmpPath(path)[|path| - 1] == path[|path| - 1] + TMP_SUFFIX;
    }
  }

  // ---------------------------------------------------------------------------------------
  // The chunk grid
  // ---------------------------------------------------------------------------------------

  /** Full chunks and a shorter last one. */
  function Grid(bytes: Bytes, chunkSize: nat): seq<Bytes> {
    if bytes == [] || chunkSize == 0 then []
    else if |bytes| <= chunkSize then [bytes]
    else [bytes[..chunkSize]] + Grid(bytes[chunkSize..], chunkSize)
  }

  /** Splitting on the grid and concatenating again gives the bytes back. */
  lemma {:induction false} ConcatOfGrid(bytes: Bytes, chunkSize: nat)
    requires chunkSize > 0
    ensures Concat(Grid(bytes, chunkSize)) == bytes
  {
    if bytes != [] {
      if |bytes| <= chunkSize {
        assert [bytes][1..] == [];
      } else {
        ConcatOfGrid(bytes[chunkSize..], chunkSize);
        var rest := Grid(bytes[chunkSize..], chunkSize);
        assert ([bytes[..chunkSize]] + rest)[1..] == rest;
      }
    }
  }

  /** Every piece but the last is as long as a chunk; the last is not empty and no longer. */
  lemma {:induction false} GridPieces(bytes: Bytes, chunkSize: nat, i: nat)
    requires i < |Grid(bytes, chunkSize)|
    ensures 0 < |Grid(bytes, chunkSize)[i]| <= chunkSize
    ensures i < |Grid(bytes, chunkSize)| - 1 ==> |Grid(bytes, chunkSize)[i]| == chunkSize
  {
    if i > 0 {
      GridPieces(bytes[chunkSize..], chunkSize, i - 1);
    }
  }

  /** Where on disk a chunk can be read. */
  type LocalChunks = map<Digest, (nat, nat)>

  /** Every place named holds a chunk with that hash. */
  ghost predicate Locates(chunks: LocalChunks, prefix: Bytes, bytes: Bytes) {
    forall h :: h in chunks ==> HoldsAt(prefix, bytes, chunks[h].0, chunks[h].1, h)
  }

  predicate HoldsAt(prefix: Bytes, bytes: Bytes, offset: nat, len: nat, hash: Digest) {
    offset + len <= |bytes| && ChunkHash(prefix, bytes[offset..offset + len]) == hash
  }

  /** The places of the chunks from an offset on; of equal chunks the last one counts. */
  function PlacesFrom(prefix: Bytes, bytes: Bytes, offset: nat, chunkSize: nat): LocalChunks
    requires offset <= |bytes|
    decreases |bytes| - offset
  {
    if chunkSize == 0 || offset == |bytes| then map[]
    else
      var len := if |bytes| - offset < chunkSize then |bytes| - offset else chunkSize;
      map[ChunkHash(prefix, bytes[offset..offset + len]) := (offset, len)] + PlacesFrom(prefix, bytes, offset + len, chunkSize)
  }

  /** What there is to reuse of what an open finds. */
  function Places(prefix: Bytes, source: Option<Bytes>, chunkSize: nat): LocalChunks {
    if source.Some? then PlacesFrom(prefix, source.value, 0, chunkSize) else map[]
  }

  function HashSet(prefix: Bytes, pieces: seq<Bytes>): set<Digest> {
    set p | p in pieces :: ChunkHash(prefix, p)
  }

  lemma {:induction false} HashSetCons(prefix: Bytes, first: Bytes, rest: seq<Bytes>)
    ensures HashSet(prefix, [first] + rest) == {ChunkHash(prefix, first)} + HashSet(prefix, rest)
  {
    var all := [first] + rest;
    forall h | h in HashSet(prefix, all) ensures h in {ChunkHash(prefix, first)} + HashSet(prefix, rest) {
      var p :| p in all && ChunkHash(prefix, p) == h;
      assert p == first || p in rest;
    }
    assert first in all;
    assert forall p :: p in rest ==> p in all;
  }

  /** The hashes of the chunks from an offset on. */
  function GridHashes(prefix: Bytes, bytes: Bytes, offset: nat, chunkSize: nat): set<Digest>
    requires offset <= |bytes|
  {
    HashSet(prefix, Grid(bytes[offset..], chunkSize))
  }

  lemma {:induction false} GridStep(bytes: Bytes, chunkSize: nat, filled: nat)
    requires 0 < filled == if |bytes| < chunkSize then |bytes| else chunkSize
    ensures Grid(bytes, chunkSize) == [bytes[..filled]] + Grid(bytes[filled..], chunkSize)
    ensures filled < chunkSize ==> Grid(bytes[filled..], chunkSize) == []
  {
    if |bytes| <= chunkSize {
      assert bytes[..filled] == bytes && bytes[filled..] == [];
    }
  }

  lemma {:induction false} GridOnward(prefix: Bytes, bytes: Bytes, offset: nat, chunkSize: nat, filled: nat)
    requires offset <= |bytes| && 0 < filled == if |bytes| - offset < chunkSize then |bytes| - offset else chunkSize
    ensures GridHashes(prefix, bytes, offset, chunkSize) ==
            {ChunkHash(prefix, bytes[offset..offset + filled])} + GridHashes(prefix, bytes, offset + filled, chunkSize)
    ensures filled < chunkSize ==> GridHashes(prefix, bytes, offset + filled, chunkSize) == {}
  {
    var here := bytes[offset..];
    assert here[..filled] == bytes[offset..offset + filled] && here[filled..] == bytes[offset + filled..];
    GridStep(here, chunkSize, filled);
    HashSetCons(prefix, here[..filled], Grid(here[filled..], chunkSize));
  }

  lemma {:induction false} GridEnd(prefix: Bytes, bytes: Bytes, offset: nat, chunkSize: nat)
    requires offset <= |bytes| && (offset == |bytes| || chunkSize == 0)
    ensures GridHashes(prefix, bytes, offset, chunkSize) == {}
  {
  }

  /** The chunks found are those of the grid. */
  lemma {:induction false} PlacesOfGrid(prefix: Bytes, bytes: Bytes, offset: nat, chunkSize: nat)
    requires offset <= |bytes|
    ensures PlacesFrom(prefix, bytes, offset, chunkSize).Keys == GridHashes(prefix, bytes, offset, chunkSize)
    decreases |bytes| - offset
  {
    if chunkSize == 0 || offset == |bytes| {
      GridEnd(prefix, bytes, offset, chunkSize);
    } else {
      var len := if |bytes| - offset < chunkSize then |bytes| - offset else chunkSize;
      PlacesOfGrid(prefix, bytes, offset + len, chunkSize);
      GridOnward(prefix, bytes, offset, chunkSize, len);
    }
  }

  /** Each is where it is said to be. */
  lemma {:induction false} PlacesLocate(prefix: Bytes, bytes: Bytes, offset: nat, chunkSize: nat)
    requires offset <= |bytes|
    ensures Locates(PlacesFrom(prefix, bytes, offset, chunkSize), prefix, bytes)
    decreases |bytes| - offset
  {
    if chunkSize != 0 && offset != |bytes| {
      PlacesLocate(prefix, bytes, offset + if |bytes| - offset < chunkSize then |bytes| - offset else chunkSize, chunkSize);
    }
  }

  /** One more chunk read. */
  lemma {:induction false} OneMorePlace(prefix: Bytes, bytes: Bytes, found: LocalChunks, offset: nat, chunkSize: nat, len: nat)
    requires offset <= |bytes| && 0 < len == if |bytes| - offset < chunkSize then |bytes| - offset else chunkSize
    ensures found + PlacesFrom(prefix, bytes, offset, chunkSize) ==
            found[ChunkHash(prefix, bytes[offset..offset + len]) := (offset, len)] + PlacesFrom(prefix, bytes, offset + len, chunkSize)
    ensures len < chunkSize ==> PlacesFrom(prefix, bytes, offset + len, chunkSize) == map[]
  {
  }

  // ---------------------------------------------------------------------------------------
  // Putting a file together
  // ---------------------------------------------------------------------------------------

  /** The bytes taken for one chunk: from its place in the file as it is now, or as fetched. */
  function Piece(now: Option<Bytes>, localChunks: LocalChunks, fetched: map<Digest, Bytes>, hash: Digest): Option<Bytes> {
    if hash in localChunks then
      var (offset, len) := localChunks[hash];
      if now.Some? && offset + len <= |now.value| then Some(now.value[offset..offset + len]) else None
    else Get(fetched, hash)
  }

  function Assembled(now: Option<Bytes>, localChunks: LocalChunks, fetched: map<Digest, Bytes>, hashes: seq<Digest>): Option<Bytes> {
    if hashes == [] then Some([])
    else
      var n := |hashes| - 1;
      var front, piece := Assembled(now, localChunks, fetched, hashes[..n]), Piece(now, localChunks, fetched, hashes[n]);
      if front.Some? && piece.Some? then Some(front.value + piece.value) else None
  }

  lemma {:induction false} OneMorePiece(now: Option<Bytes>, localChunks: LocalChunks, fetched: map<Digest, Bytes>, hashes: seq<Digest>, n: nat)
    requires n < |hashes|
    ensures var front := Assembled(now, localChunks, fetched, hashes[..n]);
            var piece := Piece(now, localChunks, fetched, hashes[n]);
            Assembled(now, localChunks, fetched, hashes[..n + 1]) ==
            if front.Some? && piece.Some? then Some(front.value + piece.value) else None
  {
    assert hashes[..n + 1][..n] == hashes[..n];
  }

  /** Where the file on disk was to be reused for this chunk, the chunk is still in its place. */
  predicate StillThere(prefix: Bytes, now: Option<Bytes>, localChunks: LocalChunks, hash: Digest) {
    hash in localChunks ==> now.Some? && HoldsAt(prefix, now.value, localChunks[hash].0, localChunks[hash].1, hash)
  }

  /** Fetched bytes are those behind the hash they came under. */
  ghost predicate TrueChunks(prefix: Bytes, fetched: map<Digest, Bytes>) {
    forall h :: h in fetched ==> fetched[h] == ChunkBytes(prefix, h)
  }

  /** One chunk, planned from a file that had it there: the length is right in any case, the bytes exactly if the chunk is still there. */
  lemma {:induction false} PieceIffStillThere(prefix: Bytes, planned: Bytes, now: Option<Bytes>, localChunks: LocalChunks,
                                              fetched: map<Digest, Bytes>, hash: Digest)
    requires Locates(localChunks, prefix, planned) && TrueChunks(prefix, fetched) && (hash in localChunks || hash in fetched)
    ensures var piece := Piece(now, localChunks, fetched, hash);
            (piece.Some? ==> |piece.value| == |ChunkBytes(prefix, hash)|) &&
            (piece == Some(ChunkBytes(prefix, hash)) <==> StillThere(prefix, now, localChunks, hash))
  {
    if hash in localChunks {
      var (offset, len) := localChunks[hash];
      ChunkBytesOfHash(prefix, planned[offset..offset + len]);
      if now.Some? && offset + len <= |now.value| {
        ChunkBytesOfHash(prefix, now.value[offset..offset + len]);
      }
    }
  }

  predicate AllStillThere(prefix: Bytes, now: Option<Bytes>, localChunks: LocalChunks, hashes: seq<Digest>) {
    forall i :: 0 <= i < |hashes| ==> StillThere(prefix, now, localChunks, hashes[i])
  }

  predicate AtHand(localChunks: LocalChunks, fetched: map<Digest, Bytes>, hashes: seq<Digest>) {
    forall h :: h in hashes ==> h in localChunks || h in fetched
  }

  /**
   A file put together from the places of one file and the bytes of another - `planned` is what was
   hashed, `now` what is read - has the content its hashes stand for if and only if every chunk
   reused is still in its place.
   */
  lemma {:induction false} AssembledIffStillThere(prefix: Bytes, planned: Bytes, now: Option<Bytes>, localChunks: LocalChunks,
                                                  fetched: map<Digest, Bytes>, hashes: seq<Digest>)
    requires Locates(localChunks, prefix, planned) && TrueChunks(prefix, fetched) && AtHand(localChunks, fetched, hashes)
    ensures Assembled(now, localChunks, fetched, hashes) == Some(ContentOf(prefix, hashes)) <==> AllStillThere(prefix, now, localChunks, hashes)
  {
    if hashes != [] {
      var n := |hashes| - 1;
      var front, last := hashes[..n], hashes[n];
      assert hashes == front + [last];
      AssembledIffStillThere(prefix, planned, now, localChunks, fetched, front);
      PieceIffStillThere(prefix, planned, now, localChunks, fetched, last);
      ContentOfSnoc(prefix, front, last);
      EqualEnds(Assembled(now, localChunks, fetched, front), Piece(now, localChunks, fetched, last),
                ContentOf(prefix, front), ChunkBytes(prefix, last));
      OneMoreStillThere(prefix, now, localChunks, front, last);
    }
  }

  lemma {:induction false} OneMoreStillThere(prefix: Bytes, now: Option<Bytes>, localChunks: LocalChunks, hashes: seq<Digest>, hash: Digest)
    ensures AllStillThere(prefix, now, localChunks, hashes + [hash]) <==>
            AllStillThere(prefix, now, localChunks, hashes) && StillThere(prefix, now, localChunks, hash)
  {
    if AllStillThere(prefix, now, localChunks, hashes + [hash]) {
      assert (hashes + [hash])[|hashes|] == hash;
      forall i | 0 <= i < |hashes| ensures StillThere(prefix, now, localChunks, hashes[i]) {
        assert (hashes + [hash])[i] == hashes[i];
      }
    }
  }

  lemma {:induction false} EqualEnds(front: Option<Bytes>, end: Option<Bytes>, wholeFront: Bytes, wholeEnd: Bytes)
    requires end.Some? ==> |end.value| == |wholeEnd|
    ensures (front.Some? && end.Some? && front.value + end.value == wholeFront + wholeEnd) <==> front == Some(wholeFront) && end == Some(wholeEnd)
  {
    if front.Some? && end.Some? && front.value + end.value == wholeFront + wholeEnd {
      assert front.value == (front.value + end.value)[..|front.value|];
      assert end.value == (front.value + end.value)[|front.value|..];
    }
  }

  /** It does not matter in which answer the true bytes of a chunk came. */
  lemma {:induction false} FetchedAlike(prefix: Bytes, now: Option<Bytes>, localChunks: LocalChunks, fetched: map<Digest, Bytes>,
                                        other: map<Digest, Bytes>, hashes: seq<Digest>)
    requires TrueChunks(prefix, fetched) && TrueChunks(prefix, other) && Assembled(now, localChunks, fetched, hashes).Some?
    requires forall h :: h in hashes ==> h in other
    ensures Assembled(now, localChunks, other, hashes) == Assembled(now, localChunks, fetched, hashes)
  {
    if hashes != [] {
      FetchedAlike(prefix, now, localChunks, fetched, other, hashes[..|hashes| - 1]);
    }
  }

  /** Without an old file to read, nothing was reused. */
  lemma {:induction false} NothingReused(localChunks: LocalChunks, fetched: map<Digest, Bytes>, hashes: seq<Digest>, i: nat)
    requires Assembled(None, localChunks, fetched, hashes).Some? && i < |hashes|
    ensures hashes[i] !in localChunks
  {
    if i < |hashes| - 1 {
      NothingReused(localChunks, fetched, hashes[..|hashes| - 1], i);
    }
  }

  // ---------------------------------------------------------------------------------------
  // The local tree
  // ---------------------------------------------------------------------------------------

  /** What a path leads to: nothing, something that is no file, or a file. */
  datatype Found = Nothing | Unreadable | Readable(bytes: Bytes)

  datatype Place = InTree(path: Components) | OutOfTree(found: Found)

  /** Where the target of a symlink at some place leads, and how many symlinks the system follows in a row. */
  datatype Symlinks = Symlinks(leadTo: (Components, string) -> Place, most: nat)

  function Follow(nodes: Tree, links: Symlinks, path: Components, hops: nat): Found
    decreases hops
  {
    if path !in nodes then Nothing
    else match nodes[path]
      case LocalFile(bytes, _) => Readable(bytes)
      case LocalLink(target) =>
        match links.leadTo(path, target)
        case OutOfTree(found) => found
        case InTree(next) => if hops == 0 then Nothing else Follow(nodes, links, next, hops - 1)
  }

  /** Each symlink leads to the next place of the chain. */
  ghost predicate IsChain(nodes: Tree, links: Symlinks, chain: seq<Components>) {
    forall i :: 0 <= i < |chain| - 1 ==>
      chain[i] in nodes && nodes[chain[i]].LocalLink? && links.leadTo(chain[i], nodes[chain[i]].target) == InTree(chain[i + 1])
  }

  /** A chain of symlinks is followed to what stands at its end, if it is not too long, and otherwise leads to nothing. */
  lemma {:induction false} ChainIsFollowed(nodes: Tree, links: Symlinks, chain: seq<Components>, hops: nat)
    requires chain != [] && IsChain(nodes, links, chain)
    ensures Follow(nodes, links, chain[0], hops) ==
            if hops < |chain| - 1 then Nothing else Follow(nodes, links, chain[|chain| - 1], hops - (|chain| - 1))
    decreases |chain|
  {
    if |chain| > 1 {
      assert chain[0 + 1] == chain[1] && links.leadTo(chain[0], nodes[chain[0]].target) == InTree(chain[1]);
      if hops > 0 {
        var rest := chain[1..];
        forall i | 0 <= i < |rest| - 1
          ensures rest[i] in nodes && nodes[rest[i]].LocalLink? && links.leadTo(rest[i], nodes[rest[i]].target) == InTree(rest[i + 1])
        {
          assert chain[i + 1] in nodes;
        }
        ChainIsFollowed(nodes, links, rest, hops - 1);
      }
    }
  }

  /** Opening follows symlinks. */
  function OpenedIn(nodes: Tree, links: Symlinks, path: Components): Option<Bytes> {
    var found := Follow(nodes, links, path, links.most);
    if found.Readable? then Some(found.bytes) else None
  }

  /** The places an open looks at. */
  function Way(nodes: Tree, links: Symlinks, path: Components, hops: nat): set<Components>
    decreases hops
  {
    {path} +
    if path in nodes && nodes[path].LocalLink? && links.leadTo(path, nodes[path].target).InTree? && hops > 0
    then Way(nodes, links, links.leadTo(path, nodes[path].target).path, hops - 1) else {}
  }

  /** Where nodes on the way have at most gone, an open finds what it found before, or nothing. */
  lemma {:induction false} FollowAlongWay(nodes: Tree, after: Tree, links: Symlinks, path: Components, hops: nat)
    requires forall p :: p in Way(nodes, links, path, hops) ==> Get(after, p) == Get(nodes, p) || Get(after, p) == None
    ensures Follow(after, links, path, hops) == Follow(nodes, links, path, hops) || Follow(after, links, path, hops) == Nothing
    decreases hops
  {
    assert path in Way(nodes, links, path, hops);
    if path in nodes && path in after {
      assert Get(after, path) == Some(after[path]) && Get(nodes, path) == Some(nodes[path]);
      if nodes[path].LocalLink? && links.leadTo(path, nodes[path].target).InTree? && hops > 0 {
        FollowAlongWay(nodes, after, links, links.leadTo(path, nodes[path].target).path, hops - 1);
      }
    }
  }

  /** The same node, whenever it was written. */
  predicate Alike(a: Option<Node>, b: Option<Node>) {
    a == b || (a.Some? && b.Some? && a.value.LocalFile? && b.value.LocalFile? && a.value.bytes == b.value.bytes)
  }

  ghost predicate AlikeTrees(a: Tree, b: Tree) {
    forall p :: Alike(Get(a, p), Get(b, p))
  }

  lemma {:induction false} FollowAlike(a: Tree, b: Tree, links: Symlinks, path: Components, hops: nat)
    requires AlikeTrees(a, b)
    ensures Follow(a, links, path, hops) == Follow(b, links, path, hops)
    decreases hops
  {
    assert Alike(Get(a, path), Get(b, path));
    if path in a && a[path].LocalLink? && links.leadTo(path, a[path].target).InTree? && hops > 0 {
      FollowAlike(a, b, links, links.leadTo(path, a[path].target).path, hops - 1);
    }
  }

  datatype FsError = IoError | NotOpen | MissingChunk(hash: Digest)

  class LocalFs {
    var nodes: Tree
    const links: Symlinks

    constructor (nodes: Tree, links: Symlinks)
      ensures this.nodes == nodes && this.links == links
    {
      this.nodes, this.links := nodes, links;
    }

    /** The bytes an open of this path reads; none if nothing is found. */
    function Opened(path: Components): Option<Bytes>
      reads this
    {
      OpenedIn(nodes, links, path)
    }

    /** `hash_local_file_chunks`: every buffer is filled over as many reads as it takes. */
    method HashLocalFileChunks(path: Components, chunkSize: nat, prefix: Bytes) returns (chunks: Result<LocalChunks, FsError>)
      ensures chunks.Ok? ==> chunks.value == Places(prefix, Opened(path), chunkSize)
      ensures chunks.Ok? && Opened(path).Some? ==>
                Locates(chunks.value, prefix, Opened(path).value) &&
                chunks.value.Keys == GridHashes(prefix, Opened(path).value, 0, chunkSize)
    {
      var opens: bool := *;
      if !opens {
        return Err(IoError);
      }
      if Opened(path).None? {
        return Ok(map[]);
      }
      var bytes := Opened(path).value;
      var found: LocalChunks := map[];
      var offset: nat := 0;
      var atEnd := false;
      while !atEnd
        invariant offset <= |bytes|
        invariant found + PlacesFrom(prefix, bytes, offset, chunkSize) == PlacesFrom(prefix, bytes, 0, chunkSize)
        invariant atEnd ==> PlacesFrom(prefix, bytes, offset, chunkSize) == map[]
        decreases !atEnd, |bytes| - offset
      {
        var filled, failed := FillBuffer(bytes, offset, chunkSize);
        if failed {
          return Err(IoError);
        }
        if filled == 0 {
          atEnd := true;
        } else {
          OneMorePlace(prefix, bytes, found, offset, chunkSize, filled);
          found := found[ChunkHash(prefix, bytes[offset..offset + filled]) := (offset, filled)];
          offset := offset + filled;
          if filled < chunkSize {
            atEnd := true;
          }
        }
      }
      PlacesOfGrid(prefix, bytes, 0, chunkSize);
      PlacesLocate(prefix, bytes, 0, chunkSize);
      assert found + map[] == found;
      chunks := Ok(found);
    }

    /** The inner read loop: short reads until the buffer is full or the file ends. */
    method FillBuffer(bytes: Bytes, offset: nat, chunkSize: nat) returns (filled: nat, failed: bool)
      requires offset <= |bytes|
      ensures !failed ==> filled == if |bytes| - offset < chunkSize then |bytes| - offset else chunkSize
    {
      filled, failed := 0, false;
      while filled < chunkSize
        invariant filled <= chunkSize && offset + filled <= |bytes|
      {
        var error: bool := *;
        if error {
          return filled, true;
        }
        var available := |bytes| - offset - filled;
        var room := chunkSize - filled;
        var n: int := *;
        if n < 1 || n > room || n > available {
          n := if available < room then available else room;
        }
        if n == 0 {
          return;
        }
        filled := filled + n;
      }
    }

    /**
     `assemble_file`. Whatever goes wrong, nothing but the temporary file is touched; on
     success the destination holds what the file as it is now and the fetched chunks give.
     */
    method AssembleFile(hashes: seq<Digest>, path: Components, localChunks: LocalChunks, fetched: map<Digest, Bytes>)
      returns (result: Result<(nat, Digest), FsError>, ghost bytes: Bytes, ghost mtime: int)
      modifies this
      ensures result.Err? ==> nodes - {TmpPath(path)} == old(nodes) - {TmpPath(path)}
      ensures result.Ok? ==>
                path != [] &&
                nodes == (old(nodes) - {TmpPath(path)})[path := LocalFile(bytes, mtime)] &&
                result.value == (|bytes|, ContentHash(bytes)) &&
                Assembled(old(Opened(path)), localChunks, fetched, hashes) == Some(bytes)
      ensures (localChunks == map[] || old(Opened(path)).Some?) &&
              AtHand(localChunks, fetched, hashes) ==>
                result.Ok? || result.error == IoError
    {
      TmpPathDiffers(path);
      bytes, mtime := [], 0;
      var reader := if localChunks == map[] then None else Opened(path);
      var mayOpen: bool := *;
      if localChunks != map[] && !mayOpen {
        result := Err(IoError);
        return;
      }
      var tmpPath := TmpPath(path);
      var mayCreate: bool := *;
      if !mayCreate {
        result := Err(IoError);
        return;
      }
      var assembled, failure := ReadChunks(hashes, reader, localChunks, fetched);
      if localChunks == map[] {
        NoReaderNeeded(reader, Opened(path), fetched, hashes);
      }
      var written: int := *;
      nodes := nodes[tmpPath := LocalFile(assembled, written)];
      if failure.Some? {
        MayRemove(tmpPath);
        result := Err(failure.value);
        return;
      }
      var flushed: bool := *;
      var renamed: bool := *;
      if !flushed || !renamed || path == [] {
        MayRemove(tmpPath);
        result := Err(IoError);
        return;
      }
      nodes := (nodes - {tmpPath})[path := LocalFile(assembled, written)];
      bytes, mtime := assembled, written;
      assert nodes == (old(nodes) - {tmpPath})[path := LocalFile(bytes, mtime)];
      result := Ok((|assembled|, ContentHash(assembled)));
    }

    /** The cleanup of the temporary file, which nobody waits for. */
    method MayRemove(path: Components)
      modifies this
      ensures nodes - {path} == old(nodes) - {path}
    {
      var happens: bool := *;
      if happens {
        nodes := nodes - {path};
      }
    }

    /** The loop over the chunk hashes. */
    method ReadChunks(hashes: seq<Digest>, reader: Option<Bytes>, localChunks: LocalChunks, fetched: map<Digest, Bytes>)
      returns (assembled: Bytes, failure: Option<FsError>)
      ensures failure.None? ==> Assembled(reader, localChunks, fetched, hashes) == Some(assembled)
      ensures (localChunks == map[] || reader.Some?) && AtHand(localChunks, fetched, hashes) ==>
                failure.None? || failure.value == IoError
    {
      assembled, failure := [], None;
      for n := 0 to |hashes|
        invariant failure.None? && Assembled(reader, localChunks, fetched, hashes[..n]) == Some(assembled)
      {
        var hash := hashes[n];
        var bytes: Bytes := [];
        if hash in localChunks {
          if reader.None? {
            return assembled, Some(NotOpen);
          }
          var (offset, len) := localChunks[hash];
          var fails: bool := *;
          if fails || offset + len > |reader.value| {
            return assembled, Some(IoError);
          }
          bytes := reader.value[offset..offset + len];
        } else if hash in fetched {
          bytes := fetched[hash];
        } else {
          return assembled, Some(MissingChunk(hash));
        }
        OneMorePiece(reader, localChunks, fetched, hashes, n);
        var full: bool := *;
        if full {
          return assembled, Some(IoError);
        }
        assembled := assembled + bytes;
      }
      assert hashes[..|hashes|] == hashes;
    }
  }

  lemma {:induction false} NoReaderNeeded(a: Option<Bytes>, b: Option<Bytes>, fetched: map<Digest, Bytes>, hashes: seq<Digest>)
    ensures Assembled(a, map[], fetched, hashes) == Assembled(b, map[], fetched, hashes)
  {
    if hashes != [] {
      NoReaderNeeded(a, b, fetched, hashes[..|hashes| - 1]);
    }
  }

  /** Any content, split in any way on the server, comes back whole with its size and its hash. */
  lemma {:induction false} ChunkRoundTrip(prefix: Bytes, pieces: seq<Bytes>)
    ensures var content := Concat(pieces);
            var received := ContentOf(prefix, HashAll(prefix, pieces));
            received == content && ContentHash(received) == ContentHash(content) &&
            forall h :: h in HashAll(prefix, pieces) ==> IsChunkHash(prefix, h)
  {
    ContentOfHashAll(prefix, pieces);
    forall i | 0 <= i < |pieces| ensures IsChunkHash(prefix, ChunkHash(prefix, pieces[i])) {
      ChunkBytesOfHash(prefix, pieces[i]);
    }
  }
}
