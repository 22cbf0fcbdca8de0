/** The uploads of `Upload`, as the push sees them: which content has landed where. */
module PushUpload {
  import opened Prelude
  import opened Chunks
  import opened Planning
  import opened Batching
  import opened Push
  import Upload

  /** The remote tree by content hash. */
  function ByHash(files: map<string, Upload.RemoteFile>): Remote {
    map p | p in files :: RFile(ContentHash(files[p].content))
  }

  lemma {:induction false} ByHashWith(files: map<string, Upload.RemoteFile>, path: string, f: Upload.RemoteFile)
    ensures ByHash(files[path := f]) == ByHash(files)[path := RFile(ContentHash(f.content))]
  {
  }

  function HashesOfBodies(bodies: seq<Bytes>): (hashes: seq<Digest>)
    ensures |hashes| == |bodies| && forall i :: 0 <= i < |bodies| ==> hashes[i] == ContentHash(bodies[i])
  {
    seq(|bodies|, i requires 0 <= i < |bodies| => ContentHash(bodies[i]))
  }

  /**
   A batch through the chunked protocol lands every file under the hash it was queued with, so
   nothing is overtaken.
   */
  lemma {:induction false} CommittedBatchLands(st: PushState, before: map<string, Upload.RemoteFile>, files: seq<PendingPushFile>,
                                               os: seq<FileReads>, config: BlobConfig)
    requires |os| == |files| && SequentialPlan(files, os, config).Ok? && st.remote == ByHash(before)
    ensures var after := Upload.WithCommits(config.chunkHashPrefix, before, SequentialPlan(files, os, config).value.commitFiles);
            var landed := LandAll(st, files, Declared(files));
            landed.remote == ByHash(after) && landed.ledger.overtaken == st.ledger.overtaken
  {
    PlanPromises(files, os, config);
    CommitsAreLandings(st, before, files, SequentialPlan(files, os, config).value.commitFiles, config);
  }

  lemma {:induction false} LandDeclared(st: PushState, file: PendingPushFile)
    ensures var landed := LandFile(st, file, file.contentHash);
            landed.remote == st.remote[file.remotePath := RFile(file.contentHash)] && landed.ledger.overtaken == st.ledger.overtaken
  {
  }

  lemma {:induction false} CommitsAreLandings(st: PushState, before: map<string, Upload.RemoteFile>, files: seq<PendingPushFile>,
                                              commits: seq<CommitFile>, config: BlobConfig)
    requires |commits| == |files| && st.remote == ByHash(before)
    requires forall i :: 0 <= i < |files| ==> CommitsQueuedFile(config, files[i], commits[i])
    ensures LandAll(st, files, Declared(files)).remote == ByHash(Upload.WithCommits(config.chunkHashPrefix, before, commits))
    ensures LandAll(st, files, Declared(files)).ledger.overtaken == st.ledger.overtaken
  {
    if files != [] {
      var n := |files| - 1;
      assert Declared(files)[..n] == Declared(files[..n]);
      CommitsAreLandings(st, before, files[..n], commits[..n], config);
      assert CommitsQueuedFile(config, files[n], commits[n]);
      var content := ContentOf(config.chunkHashPrefix, commits[n].chunks);
      ByHashWith(Upload.WithCommits(config.chunkHashPrefix, before, commits[..n]), files[n].remotePath,
                 Upload.RemoteFile(content, commits[n].contentHash, commits[n].size));
      LandDeclared(LandAll(st, files[..n], Declared(files[..n])), files[n]);
    }
  }

  /** A batch of direct uploads lands whatever was streamed; a file is overtaken exactly when that hashes differently. */
  lemma {:induction false} PutBatchLands(st: PushState, before: map<string, Upload.RemoteFile>, files: seq<PendingPushFile>, bodies: seq<Bytes>)
    requires |bodies| == |files| && st.remote == ByHash(before)
    ensures var landed := LandAll(st, files, HashesOfBodies(bodies));
            landed.remote == ByHash(Upload.WithPuts(before, files, bodies)) &&
            forall pair :: pair in landed.ledger.overtaken <==>
              pair in st.ledger.overtaken ||
              exists i :: 0 <= i < |files| && pair == (files[i].remotePath, files[i].contentHash) && ContentHash(bodies[i]) != files[i].contentHash
  {
    if files != [] {
      var n := |files| - 1;
      assert HashesOfBodies(bodies)[..n] == HashesOfBodies(bodies[..n]);
      PutBatchLands(st, before, files[..n], bodies[..n]);
      ByHashWith(Upload.WithPuts(before, files[..n], bodies[..n]), files[n].remotePath,
                 Upload.RemoteFile(bodies[n], ContentHash(bodies[n]), |bodies[n]|));
      var front := LandAll(st, files[..n], HashesOfBodies(bodies[..n]));
      var landed := LandAll(st, files, HashesOfBodies(bodies));
      forall pair ensures pair in landed.ledger.overtaken <==>
        pair in front.ledger.overtaken || (pair == (files[n].remotePath, files[n].contentHash) && ContentHash(bodies[n]) != files[n].contentHash) {
      }
    }
  }

  /** What has arrived of a batch, as its upload leaves the server. */
  function DeliveryOf(direct: bool, committed: bool, bodies: seq<Bytes>): Delivery {
    if direct then Direct(HashesOfBodies(bodies)) else Chunked(committed)
  }

  lemma {:induction false} CommittedArrives(st: PushState, before: map<string, Upload.RemoteFile>, files: seq<PendingPushFile>,
                                            os: seq<FileReads>, config: BlobConfig)
    requires |os| == |files| && SequentialPlan(files, os, config).Ok? && st.remote == ByHash(before)
    ensures Arrive(st, files, Chunked(true)).remote ==
            ByHash(Upload.WithCommits(config.chunkHashPrefix, before, SequentialPlan(files, os, config).value.commitFiles))
  {
    CommittedBatchLands(st, before, files, os, config);
    assert files[..|files|] == files;
  }

  lemma {:induction false} NothingArrives(st: PushState, files: seq<PendingPushFile>)
    ensures Arrive(st, files, Chunked(false)) == st
  {
    assert files[..0] == [];
  }

  lemma {:induction false} PutsArrive(st: PushState, before: map<string, Upload.RemoteFile>, files: seq<PendingPushFile>, bodies: seq<Bytes>)
    requires |bodies| <= |files| && st.remote == ByHash(before)
    ensures Arrive(st, files, Direct(HashesOfBodies(bodies))).remote == ByHash(Upload.WithPuts(before, files[..|bodies|], bodies))
  {
    PutBatchLands(st, before, files[..|bodies|], bodies);
  }

  /**
   The upload of a batch, successful or not, is a delivery as the push knows them: all files
   under their queued hashes or none if it goes through the chunked protocol, the first ones with
   what they held when streamed if it goes direct; everything has arrived if it succeeds.
   */
  method PushBatch(server: Upload.Server, files: seq<PendingPushFile>, os: seq<FileReads>, config: BlobConfig,
                   hex: Hex, workerCount: nat, ghost st: PushState)
    returns (outcome: Result<Upload.Strategy, Upload.ErrorClass>, ghost delivery: Delivery)
    requires |os| == |files| && files != [] && server.Valid() && config.chunkHashPrefix == server.prefix
    requires st.remote == ByHash(server.files)
    modifies server
    ensures Arrive(st, files, delivery).remote == ByHash(server.files)
    ensures outcome.Ok? ==> |Arrivals(files, delivery)| == |files|
    ensures delivery.Direct? <==> Upload.GoesDirect(files, os, config, hex)
  {
    ghost var before := server.files;
    var pushed, bodies := Upload.PushBatchViaChunks(server, files, os, config, hex, workerCount);
    outcome := pushed;
    ghost var direct := Upload.GoesDirect(files, os, config, hex);
    ghost var committed := outcome.Ok? || server.files != before;
    delivery := DeliveryOf(direct, committed, bodies);
    if direct {
      PutsArrive(st, before, files, bodies);
    } else if committed {
      CommittedArrives(st, before, files, os, config);
    } else {
      NothingArrives(st, files);
    }
  }
}
