/**
 The chunked upload of one batch: plan, ask which chunks are missing, upload those, commit.
 Other clients work on the server in between, uploads finish in any order, the local files
 may change at any moment, and any call may fail, with or without having taken effect.
 */
module Upload {
  import opened Prelude
  import opened Chunks
  import opened Planning
  import opened Batching

  /** The classes of `ClientError` that push tells apart. */
  datatype ErrorClass = Transient | Unrecoverable | Forbidden | OtherError

  datatype RemoteFile = RemoteFile(content: Bytes, contentHash: Digest, size: nat)

  datatype BlobCheckResponse = BlobCheckResponse(have: seq<Digest>, needed: seq<Digest>)

  type ChunkStore = map<Digest, Bytes>

  ghost predicate ValidStore(prefix: Bytes, store: ChunkStore) {
    forall h :: h in store ==> ChunkHash(prefix, store[h]) == h
  }

  predicate Grew(before: ChunkStore, after: ChunkStore) {
    forall h :: h in before ==> h in after && after[h] == before[h]
  }

  predicate AllPresent(store: ChunkStore, commits: seq<CommitFile>) {
    forall i :: 0 <= i < |commits| ==> forall h :: h in commits[i].chunks ==> h in store
  }

  /** The bytes the server puts together for a list of chunks it holds. */
  function Materialized(store: ChunkStore, chunks: seq<Digest>): Bytes
    requires forall h :: h in chunks ==> h in store
  {
    if chunks == [] then [] else Materialized(store, chunks[..|chunks| - 1]) + store[chunks[|chunks| - 1]]
  }

  lemma {:induction false} MaterializedIsContent(prefix: Bytes, store: ChunkStore, chunks: seq<Digest>)
    requires ValidStore(prefix, store) && forall h :: h in chunks ==> h in store
    ensures Materialized(store, chunks) == ContentOf(prefix, chunks)
  {
    if chunks == [] {
      assert BytesOfAll(prefix, chunks) == [];
    } else {
      var front, last := chunks[..|chunks| - 1], chunks[|chunks| - 1];
      MaterializedIsContent(prefix, store, front);
      assert chunks == front + [last];
      ContentOfSnoc(prefix, front, last);
      ChunkBytesOfHash(prefix, store[last]);
    }
  }

  /** The remote tree after these commits, each file made of the bytes its chunk hashes stand for. */
  function WithCommits(prefix: Bytes, files: map<string, RemoteFile>, commits: seq<CommitFile>): map<string, RemoteFile> {
    if commits == [] then files
    else
      var commit := commits[|commits| - 1];
      WithCommits(prefix, files, commits[..|commits| - 1])
        [commit.path := RemoteFile(ContentOf(prefix, commit.chunks), commit.contentHash, commit.size)]
  }

  // ---------------------------------------------------------------------------------------
  // The server
  // ---------------------------------------------------------------------------------------

  class Server {
    const prefix: Bytes
    var chunkStore: ChunkStore
    var files: map<string, RemoteFile>

    constructor (prefix: Bytes)
      ensures Valid() && this.prefix == prefix
    {
      this.prefix := prefix;
      chunkStore, files := map[], map[];
    }

    ghost predicate Valid()
      reads this
    {
      ValidStore(prefix, chunkStore)
    }

    /** Chunks that arrive from elsewhere; the engine verifies every one. */
    method ChunksArrive()
      requires Valid()
      modifies this`chunkStore
      ensures Valid() && Grew(old(chunkStore), chunkStore)
    {
      var arriving: ChunkStore := *;
      if forall h | h in arriving :: ChunkHash(prefix, arriving[h]) == h {
        chunkStore := arriving + chunkStore;
      }
    }

    /** A request of at most 512 hashes. */
    method BlobCheckOnce(hashes: seq<Digest>) returns (response: Result<BlobCheckResponse, ErrorClass>)
      requires Valid() && 0 < |hashes| <= 512
      modifies this`chunkStore
      ensures Valid() && Grew(old(chunkStore), chunkStore)
      ensures response.Ok? ==>
                (forall h :: h in hashes <==> h in response.value.have || h in response.value.needed) &&
                (forall h :: h in response.value.have ==> h in chunkStore)
    {
      ChunksArrive();
      var fails: bool := *;
      if fails {
        var error: ErrorClass := *;
        return Err(error);
      }
      var have: seq<Digest> := [];
      var needed: seq<Digest> := [];
      for n := 0 to |hashes|
        invariant forall h :: h in hashes[..n] <==> h in have || h in needed
        invariant forall h :: h in have ==> h in chunkStore
      {
        if hashes[n] in chunkStore {
          have := have + [hashes[n]];
        } else {
          needed := needed + [hashes[n]];
        }
      }
      response := Ok(BlobCheckResponse(have, needed));
    }

    /** `blob_check`: at most 512 hashes per request, the answers put together. */
    method BlobCheck(hashes: seq<Digest>) returns (combined: Result<BlobCheckResponse, ErrorClass>)
      requires Valid()
      modifies this`chunkStore
      ensures Valid() && Grew(old(chunkStore), chunkStore)
      ensures combined.Ok? ==>
                (forall h :: h in hashes <==> h in combined.value.have || h in combined.value.needed) &&
                (forall h :: h in combined.value.have ==> h in chunkStore)
    {
      var have: seq<Digest> := [];
      var needed: seq<Digest> := [];
      var at := 0;
      while at < |hashes|
        invariant at <= |hashes|
        invariant Valid() && Grew(old(chunkStore), chunkStore)
        invariant forall h :: h in hashes[..at] <==> h in have || h in needed
        invariant forall h :: h in have ==> h in chunkStore
      {
        var end := if at + 512 < |hashes| then at + 512 else |hashes|;
        var response := BlobCheckOnce(hashes[at..end]);
        if response.Err? {
          return Err(response.error);
        }
        assert hashes[..end] == hashes[..at] + hashes[at..end];
        have := have + response.value.have;
        needed := needed + response.value.needed;
        at := end;
      }
      assert hashes[..|hashes|] == hashes;
      combined := Ok(BlobCheckResponse(have, needed));
    }

    /** The engine refuses bytes that do not hash to the name they come under. */
    method UploadChunk(hash: Digest, bytes: Bytes) returns (error: Option<ErrorClass>)
      requires Valid()
      modifies this`chunkStore
      ensures Valid() && Grew(old(chunkStore), chunkStore)
      ensures error.None? ==> hash in chunkStore
    {
      ChunksArrive();
      var lost: bool := *;
      var fails: bool := *;
      if !lost && ChunkHash(prefix, bytes) == hash {
        chunkStore := if hash in chunkStore then chunkStore else chunkStore[hash := bytes];
      }
      if fails || hash !in chunkStore {
        var class_: ErrorClass := *;
        return Some(class_);
      }
      error := None;
    }

    /** Materialize files from chunks already stored: the caller has to have seen to those. */
    method BlobCommit(commits: seq<CommitFile>) returns (error: Option<ErrorClass>)
      requires Valid() && AllPresent(chunkStore, commits)
      modifies this
      ensures Valid() && Grew(old(chunkStore), chunkStore)
      ensures error.None? ==> files == WithCommits(prefix, old(files), commits)
      ensures error.Some? ==> files == old(files) || files == WithCommits(prefix, old(files), commits)
    {
      ChunksArrive();
      var lost: bool := *;
      if !lost {
        for n := 0 to |commits|
          invariant AllPresent(chunkStore, commits)
          invariant Valid() && Grew(old(chunkStore), chunkStore)
          invariant files == WithCommits(prefix, old(files), commits[..n])
        {
          assert commits[..n + 1][..n] == commits[..n];
          var commit := commits[n];
          MaterializedIsContent(prefix, chunkStore, commit.chunks);
          files := files[commit.path := RemoteFile(Materialized(chunkStore, commit.chunks), commit.contentHash, commit.size)];
        }
        assert commits[..|commits|] == commits;
      }
      var fails: bool := *;
      if lost || fails {
        var class_: ErrorClass := *;
        return Some(class_);
      }
      error := None;
    }

    method PutFile(path: string, body: Bytes) returns (error: Option<ErrorClass>)
      modifies this`files
      ensures files == old(files) || files == old(files)[path := RemoteFile(body, ContentHash(body), |body|)]
      ensures error.None? ==> files == old(files)[path := RemoteFile(body, ContentHash(body), |body|)]
    {
      var lost: bool := *;
      if !lost {
        files := files[path := RemoteFile(body, ContentHash(body), |body|)];
      }
      var fails: bool := *;
      var class_: ErrorClass := *;
      error := if lost || fails then Some(class_) else None;
    }
  }

  // ---------------------------------------------------------------------------------------
  // The client side
  // ---------------------------------------------------------------------------------------

  /** `read_pending_chunk`: the file may have become anything by now, but a wrong chunk does not pass. */
  method ReadPendingChunk(chunk: ChunkRef, prefix: Bytes) returns (bytes: Result<Bytes, ErrorClass>)
    ensures bytes.Ok? ==> ChunkHash(prefix, bytes.value) == chunk.hash && |bytes.value| == chunk.len
  {
    var readable: bool := *;
    var now: Bytes := *;
    if !readable || |now| != chunk.len || ChunkHash(prefix, now) != chunk.hash {
      return Err(OtherError);
    }
    bytes := Ok(now);
  }

  /** The upload loop; chunks are taken in any order, and a failure may leave others under way. */
  method UploadNeeded(server: Server, chunks: map<Digest, ChunkRef>, ghost present: set<Digest>) returns (error: Option<ErrorClass>)
    requires server.Valid()
    requires forall h :: h in chunks ==> chunks[h].hash == h
    requires forall h :: h in present ==> h in server.chunkStore
    modifies server`chunkStore
    ensures server.Valid() && Grew(old(server.chunkStore), server.chunkStore)
    ensures error.None? ==> forall h :: h in present || h in chunks ==> h in server.chunkStore
  {
    var remaining := chunks.Keys;
    while remaining != {}
      invariant remaining <= chunks.Keys
      invariant server.Valid() && Grew(old(server.chunkStore), server.chunkStore)
      invariant forall h :: h in present || (h in chunks && h !in remaining) ==> h in server.chunkStore
    {
      var hash :| hash in remaining;
      var bytes := ReadPendingChunk(chunks[hash], server.prefix);
      if bytes.Err? {
        server.ChunksArrive();
        return Some(bytes.error);
      }
      var failed := server.UploadChunk(hash, bytes.value);
      if failed.Some? {
        server.ChunksArrive();
        return failed;
      }
      remaining := remaining - {hash};
    }
    error := None;
  }

  datatype Strategy = ChunkedBlob | DirectFilePut(bodies: seq<Bytes>)

  /** Either manifest check sends the batch to the direct upload. */
  predicate GoesDirect(files: seq<PendingPushFile>, os: seq<FileReads>, config: BlobConfig, hex: Hex)
    requires |os| == |files|
  {
    EstimatedBodyBytes(files, config) > 31_457_280 ||
    (var plan := SequentialPlan(files, os, config);
     plan.Ok? && BlobCommitBodyBytes(plan.value.commitFiles, hex) > 31_457_280)
  }

  /** Neither does for a batch of several files within the limits, with bounded names and full-size reads. */
  lemma {:induction false} SeveralFilesGoChunked(files: seq<PendingPushFile>, os: seq<FileReads>, config: BlobConfig, hex: Hex)
    requires |os| == |files| && Is64(hex) && WithinLimits(files, config) && |files| > 1
    requires forall i :: 0 <= i < |files| ==> files[i].fileSize <= U64_MAX && TextBytes(files[i]) <= TEXT_BOUND
    requires forall i :: 0 <= i < |files| ==> os[i].Reads? ==> FullReads(os[i].pieces, config.chunkSize)
    ensures !GoesDirect(files, os, config, hex)
  {
    SmallEstimate(files, config);
    if SequentialPlan(files, os, config).Ok? {
      OnlySingleFilesGoDirect(files, os, config, hex);
    }
  }

  /**
   `push_batch_via_chunks`. Its one call of `blob_commit` meets that call's demand that every
   chunk be stored; on success the remote tree is the old one with every planned commit, and a
   failure leaves either that or the old one. A batch that goes direct lands the first files
   with the bytes streamed, all of them on success.
   */
  method PushBatchViaChunks(server: Server, files: seq<PendingPushFile>, os: seq<FileReads>, config: BlobConfig,
                            hex: Hex, workerCount: nat)
    returns (outcome: Result<Strategy, ErrorClass>, ghost bodies: seq<Bytes>)
    requires |os| == |files| && server.Valid() && config.chunkHashPrefix == server.prefix
    modifies server
    ensures server.Valid() && Grew(old(server.chunkStore), server.chunkStore)
    ensures files == [] ==> outcome == Ok(ChunkedBlob) && server.files == old(server.files)
    ensures outcome.Ok? && files != [] ==> (outcome.value.DirectFilePut? <==> GoesDirect(files, os, config, hex))
    ensures outcome == Ok(ChunkedBlob) && files != [] ==>
              SequentialPlan(files, os, config).Ok? &&
              server.files == WithCommits(server.prefix, old(server.files), SequentialPlan(files, os, config).value.commitFiles)
    ensures files != [] && GoesDirect(files, os, config, hex) ==>
              |bodies| <= |files| && server.files == WithPuts(old(server.files), files[..|bodies|], bodies) &&
              (outcome.Ok? ==> outcome.value == DirectFilePut(bodies) && |bodies| == |files|)
    ensures outcome.Err? && !GoesDirect(files, os, config, hex) ==>
              server.files == old(server.files) ||
              (SequentialPlan(files, os, config).Ok? &&
               server.files == WithCommits(server.prefix, old(server.files), SequentialPlan(files, os, config).value.commitFiles))
  {
    bodies := [];
    if files == [] {
      return Ok(ChunkedBlob), [];
    }
    var estimatedCommitBytes := EstimatedBlobCommitBodyBytes(files, config);
    if estimatedCommitBytes > BLOB_COMMIT_SAFE_REQUEST_BODY_BYTES {
      outcome, bodies := PushBatchViaDirectFilePut(server, files);
      return;
    }
    var planned := PlanPushBatch(files, os, config, workerCount);
    if planned.Err? {
      return Err(OtherError), [];
    }
    var plan := planned.value;
    if BlobCommitBodyBytes(plan.commitFiles, hex) > BLOB_COMMIT_SAFE_REQUEST_BODY_BYTES {
      outcome, bodies := PushBatchViaDirectFilePut(server, files);
      return;
    }
    PlanPromises(files, os, config);
    outcome := CheckUploadCommit(server, plan);
  }

  /** The three calls of the chunked protocol. */
  method CheckUploadCommit(server: Server, plan: BatchPlan) returns (outcome: Result<Strategy, ErrorClass>)
    requires server.Valid()
    requires forall h :: h in plan.table.uniqueHashes <==> h in plan.table.uploadChunks
    requires forall h :: h in plan.table.uniqueHashes <==> Names(plan.commitFiles, h)
    requires forall h :: h in plan.table.uploadChunks ==> plan.table.uploadChunks[h].hash == h
    modifies server
    ensures server.Valid() && Grew(old(server.chunkStore), server.chunkStore)
    ensures outcome.Ok? ==>
              outcome.value == ChunkedBlob && server.files == WithCommits(server.prefix, old(server.files), plan.commitFiles)
    ensures outcome.Err? ==>
              server.files == old(server.files) || server.files == WithCommits(server.prefix, old(server.files), plan.commitFiles)
  {
    var neededSet: set<Digest> := {};
    if plan.table.uniqueHashes != [] {
      var response := server.BlobCheck(plan.table.uniqueHashes);
      if response.Err? {
        return Err(response.error);
      }
      neededSet := Elements(response.value.needed);
      assert forall h :: h in plan.table.uniqueHashes && h !in neededSet ==> h in response.value.have;
    }
    var chunks := map h | h in plan.table.uploadChunks && h in neededSet :: plan.table.uploadChunks[h];
    ghost var present := set h | h in plan.table.uploadChunks && h !in neededSet;
    var failed := UploadNeeded(server, chunks, present);
    if failed.Some? {
      return Err(failed.value);
    }
    assert AllPresent(server.chunkStore, plan.commitFiles) by {
      forall i, h | 0 <= i < |plan.commitFiles| && h in plan.commitFiles[i].chunks ensures h in server.chunkStore {
        assert Names(plan.commitFiles, h);
        assert h in present || h in chunks;
      }
    }
    var committed := server.BlobCommit(plan.commitFiles);
    outcome := if committed.Some? then Err(committed.value) else Ok(ChunkedBlob);
  }

  /** Files put one after the other, each with whatever its local file held at that moment. */
  function WithPuts(remote: map<string, RemoteFile>, files: seq<PendingPushFile>, bodies: seq<Bytes>): map<string, RemoteFile>
    requires |files| == |bodies|
  {
    if files == [] then remote
    else
      var n := |files| - 1;
      WithPuts(remote, files[..n], bodies[..n])
        [files[n].remotePath := RemoteFile(bodies[n], ContentHash(bodies[n]), |bodies[n]|)]
  }

  /**
   `push_batch_via_direct_file_put`. Whatever the outcome, the first files have landed, each with
   its streamed bytes, and nothing else has changed; on success all of them have. The file whose
   put failed is among them if only the answer was lost.
   */
  method PushBatchViaDirectFilePut(server: Server, files: seq<PendingPushFile>)
    returns (outcome: Result<Strategy, ErrorClass>, ghost bodies: seq<Bytes>)
    modifies server`files
    ensures |bodies| <= |files| && server.files == WithPuts(old(server.files), files[..|bodies|], bodies)
    ensures outcome.Ok? ==> outcome.value == DirectFilePut(bodies) && |bodies| == |files|
  {
    var streamed: seq<Bytes> := [];
    bodies := [];
    for n := 0 to |files|
      invariant |streamed| == n && bodies == streamed && server.files == WithPuts(old(server.files), files[..n], streamed)
    {
      var opens: bool := *;
      if !opens {
        return Err(OtherError), streamed;
      }
      var body: Bytes := *;
      assert files[..n + 1][..n] == files[..n] && (streamed + [body])[..n] == streamed;
      ghost var before := server.files;
      var failed := server.PutFile(files[n].remotePath, body);
      if failed.Some? {
        return Err(failed.value), if server.files == before then streamed else streamed + [body];
      }
      streamed := streamed + [body];
      bodies := streamed;
    }
    assert files[..|files|] == files;
    outcome := Ok(DirectFilePut(streamed));
  }

  // ---------------------------------------------------------------------------------------
  // What success means for the record push will write
  // ---------------------------------------------------------------------------------------

  /** The remote file is the one the record will describe. */
  ghost predicate Matches(remote: map<string, RemoteFile>, file: PendingPushFile) {
    file.remotePath in remote &&
    var f := remote[file.remotePath];
    ContentHash(f.content) == f.contentHash == file.contentHash && |f.content| == f.size == file.fileSize
  }

  ghost predicate DistinctTargets(files: seq<PendingPushFile>) {
    forall i, j :: 0 <= i < j < |files| ==> files[i].remotePath != files[j].remotePath
  }

  /**
   A committed batch leaves every file at its path with exactly the bytes whose hash and size
   were queued, for any cut of the reads and whatever happened to the local files since.
   */
  lemma {:induction false} CommittedFilesMatch(remote: map<string, RemoteFile>, files: seq<PendingPushFile>, os: seq<FileReads>, config: BlobConfig)
    requires |os| == |files| && SequentialPlan(files, os, config).Ok? && DistinctTargets(files)
    ensures var after := WithCommits(config.chunkHashPrefix, remote, SequentialPlan(files, os, config).value.commitFiles);
            (forall i :: 0 <= i < |files| ==> Matches(after, files[i])) &&
            (forall p :: (forall i :: 0 <= i < |files| ==> files[i].remotePath != p) ==> Get(after, p) == Get(remote, p))
  {
    PlanPromises(files, os, config);
    CommitsLand(remote, files, SequentialPlan(files, os, config).value.commitFiles, config);
  }

  lemma {:induction false} CommitLands(before: map<string, RemoteFile>, file: PendingPushFile, commit: CommitFile, config: BlobConfig, other: PendingPushFile)
    requires CommitsQueuedFile(config, file, commit)
    ensures var after := before[commit.path := RemoteFile(ContentOf(config.chunkHashPrefix, commit.chunks), commit.contentHash, commit.size)];
            Matches(after, file) && (other.remotePath != file.remotePath && Matches(before, other) ==> Matches(after, other))
  {
  }

  lemma {:induction false} CommitsLand(remote: map<string, RemoteFile>, files: seq<PendingPushFile>, commits: seq<CommitFile>, config: BlobConfig)
    requires |commits| == |files| && DistinctTargets(files)
    requires forall i :: 0 <= i < |files| ==> CommitsQueuedFile(config, files[i], commits[i])
    ensures var after := WithCommits(config.chunkHashPrefix, remote, commits);
            (forall i :: 0 <= i < |files| ==> Matches(after, files[i])) &&
            (forall p :: (forall i :: 0 <= i < |files| ==> files[i].remotePath != p) ==> Get(after, p) == Get(remote, p))
  {
    if files != [] {
      var n := |files| - 1;
      CommitsLand(remote, files[..n], commits[..n], config);
      var before := WithCommits(config.chunkHashPrefix, remote, commits[..n]);
      var after := WithCommits(config.chunkHashPrefix, remote, commits);
      forall i | 0 <= i < |files| ensures Matches(after, files[i]) {
        CommitLands(before, files[n], commits[n], config, files[i]);
        if i < n {
          assert Matches(before, files[..n][i]);
        }
      }
      forall p | forall i :: 0 <= i < |files| ==> files[i].remotePath != p ensures Get(after, p) == Get(remote, p) {
        assert p != files[n].remotePath;
      }
    }
  }

  /**
   A direct upload has no such check: the file put last under a path matches its record if and
   only if its local file still had the hashed content when it was streamed.
   */
  lemma {:induction false} DirectPutMatchesIffUnchanged(remote: map<string, RemoteFile>, files: seq<PendingPushFile>, bodies: seq<Bytes>, i: nat)
    requires |files| == |bodies| && DistinctTargets(files) && i < |files|
    ensures Matches(WithPuts(remote, files, bodies), files[i]) <==>
            ContentHash(bodies[i]) == files[i].contentHash && |bodies[i]| == files[i].fileSize
  {
    PutLands(remote, files, bodies, i);
  }

  lemma {:induction false} PutLands(remote: map<string, RemoteFile>, files: seq<PendingPushFile>, bodies: seq<Bytes>, i: nat)
    requires |files| == |bodies| && DistinctTargets(files) && i < |files|
    ensures Get(WithPuts(remote, files, bodies), files[i].remotePath) == Some(RemoteFile(bodies[i], ContentHash(bodies[i]), |bodies[i]|))
  {
    var n := |files| - 1;
    if i < n {
      PutLands(remote, files[..n], bodies[..n], i);
    }
  }

  /** A file that changed between hashing and streaming: the record will name a hash the server does not hold. */
  lemma {:induction false} DirectPutOfChangedFile()
    ensures var file := PendingPushFile("a", "/a", ContentHash([1]), 1, 0, None);
            !Matches(WithPuts(map[], [file], [[2]]), file)
  {
    var file := PendingPushFile("a", "/a", ContentHash([1]), 1, 0, None);
    DirectPutMatchesIffUnchanged(map[], [file], [[2]], 0);
    assert [1 as byte] != [2];
  }
}
