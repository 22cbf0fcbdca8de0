/**
 Planning a push batch: every file is read once more, cut where the reads happen to end,
 hashed, and checked against the hash it was queued with. Several workers plan ranges of the
 batch; the merged plan must be the one a single worker would have made.
 */
module Planning {
  import opened Prelude
  import opened Chunks

  datatype BlobConfig = BlobConfig(chunkSize: nat, chunkHashPrefix: Bytes)

  datatype PendingPushFile = PendingPushFile(
    localPath: string,
    remotePath: string,
    contentHash: Digest,
    fileSize: nat,
    modifiedAt: int,
    contentType: Option<string>)

  datatype CommitFile = CommitFile(
    path: string,
    chunks: seq<Digest>,
    contentHash: Digest,
    size: nat,
    contentType: Option<string>)

  datatype ChunkRef = ChunkRef(hash: Digest, localPath: string, offset: nat, len: nat)

  datatype PlanError = OpenFailed(path: string) | ReadFailed(path: string) | FileChanged(path: string)

  /**
   What the operating system answers when a file is read: a failed open, or a number of
   non-empty reads, possibly short ones, followed by end of file or by an error.
   */
  datatype FileReads = Unopenable | Reads(pieces: seq<Bytes>, reachesEnd: bool)

  // ---------------------------------------------------------------------------------------
  // One file
  // ---------------------------------------------------------------------------------------

  datatype Planned = Planned(commit: CommitFile, refs: seq<ChunkRef>)

  function RefsOf(prefix: Bytes, path: string, pieces: seq<Bytes>): (refs: seq<ChunkRef>)
    ensures |refs| == |pieces|
  {
    seq(|pieces|, i requires 0 <= i < |pieces| =>
      ChunkRef(ChunkHash(prefix, pieces[i]), path, |Concat(pieces[..i])|, |pieces[i]|))
  }

  /** What planning this file comes to, given how its reads go. */
  function PlanFile(file: PendingPushFile, os: FileReads, config: BlobConfig): Result<Planned, PlanError> {
    match os
    case Unopenable => Err(OpenFailed(file.localPath))
    case Reads(pieces, reachesEnd) =>
      if !reachesEnd then Err(ReadFailed(file.localPath))
      else if |Concat(pieces)| != file.fileSize || ContentHash(Concat(pieces)) != file.contentHash then
        Err(FileChanged(file.localPath))
      else
        Ok(Planned(
          CommitFile(file.remotePath, HashAll(config.chunkHashPrefix, pieces), file.contentHash, file.fileSize, file.contentType),
          RefsOf(config.chunkHashPrefix, file.localPath, pieces)))
  }

  /** `plan_file_chunks`: the loop of reads with its running offset and hash. */
  method PlanFileChunks(file: PendingPushFile, os: FileReads, config: BlobConfig)
    returns (planned: Result<Planned, PlanError>)
    ensures planned == PlanFile(file, os, config)
  {
    if os.Unopenable? {
      return Err(OpenFailed(file.localPath));
    }
    var prefix := config.chunkHashPrefix;
    var pieces := os.pieces;
    var offset := 0;
    var chunkHashes: seq<Digest> := [];
    var chunkRefs: seq<ChunkRef> := [];
    var hashed: Bytes := [];
    for n := 0 to |pieces|
      invariant hashed == Concat(pieces[..n]) && offset == |hashed|
      invariant chunkHashes == HashAll(prefix, pieces[..n])
      invariant chunkRefs == RefsOf(prefix, file.localPath, pieces[..n])
    {
      var chunk := pieces[n];
      assert pieces[..n + 1] == pieces[..n] + [chunk];
      ConcatSnoc(pieces[..n], chunk);
      assert forall i :: 0 <= i <= n ==> pieces[..n + 1][..i] == pieces[..i] && (i <= n ==> pieces[..n][..i] == pieces[..i]);
      var hash := ChunkHash(prefix, chunk);
      hashed := hashed + chunk;
      chunkHashes := chunkHashes + [hash];
      chunkRefs := chunkRefs + [ChunkRef(hash, file.localPath, offset, |chunk|)];
      offset := offset + |chunk|;
    }
    assert pieces[..|pieces|] == pieces;
    if !os.reachesEnd {
      return Err(ReadFailed(file.localPath));
    }
    if offset != file.fileSize || ContentHash(hashed) != file.contentHash {
      return Err(FileChanged(file.localPath));
    }
    planned := Ok(Planned(
      CommitFile(file.remotePath, chunkHashes, file.contentHash, file.fileSize, file.contentType), chunkRefs));
  }

  /** A planned file names exactly the content it was queued with, wherever the reads were cut. */
  lemma {:induction false} PlannedFileIsQueuedContent(file: PendingPushFile, os: FileReads, config: BlobConfig)
    requires PlanFile(file, os, config).Ok?
    ensures var commit := PlanFile(file, os, config).value.commit;
            var content := ContentOf(config.chunkHashPrefix, commit.chunks);
            commit.path == file.remotePath && commit.contentType == file.contentType &&
            ContentHash(content) == commit.contentHash == file.contentHash &&
            |content| == commit.size == file.fileSize
    ensures var planned := PlanFile(file, os, config).value;
            HashesOf(planned.refs) == planned.commit.chunks
    ensures forall h :: h in PlanFile(file, os, config).value.commit.chunks ==> IsChunkHash(config.chunkHashPrefix, h)
  {
    ContentOfHashAll(config.chunkHashPrefix, os.pieces);
    forall i | 0 <= i < |os.pieces| ensures IsChunkHash(config.chunkHashPrefix, ChunkHash(config.chunkHashPrefix, os.pieces[i])) {
      ChunkBytesOfHash(config.chunkHashPrefix, os.pieces[i]);
    }
  }

  // ---------------------------------------------------------------------------------------
  // Chunk references without repetition
  // ---------------------------------------------------------------------------------------

  function HashesOf(refs: seq<ChunkRef>): (hashes: seq<Digest>)
    ensures |hashes| == |refs| && forall i :: 0 <= i < |refs| ==> hashes[i] == refs[i].hash
  {
    seq(|refs|, i requires 0 <= i < |refs| => refs[i].hash)
  }

  /** `unique_hashes` and `upload_chunks`: the hashes in order of first occurrence, and where to read each. */
  datatype ChunkTable = ChunkTable(uniqueHashes: seq<Digest>, uploadChunks: map<Digest, ChunkRef>)

  const EMPTY_TABLE := ChunkTable([], map[])

  function AddRef(table: ChunkTable, r: ChunkRef): ChunkTable {
    if r.hash in table.uploadChunks then table
    else ChunkTable(table.uniqueHashes + [r.hash], table.uploadChunks[r.hash := r])
  }

  function TableOf(refs: seq<ChunkRef>): ChunkTable {
    if refs == [] then EMPTY_TABLE else AddRef(TableOf(refs[..|refs| - 1]), refs[|refs| - 1])
  }

  lemma {:induction false} TableSnoc(refs: seq<ChunkRef>, r: ChunkRef)
    ensures TableOf(refs + [r]) == AddRef(TableOf(refs), r)
  {
    assert (refs + [r])[..|refs|] == refs;
  }

  /** Every hash once, each with a reference that carries it, and exactly the hashes there are. */
  lemma {:induction false} TableShape(refs: seq<ChunkRef>)
    ensures var table := TableOf(refs);
            Distinct(table.uniqueHashes) &&
            (forall h :: h in table.uniqueHashes <==> h in table.uploadChunks) &&
            (forall h :: h in table.uploadChunks <==> h in HashesOf(refs)) &&
            (forall h :: h in table.uploadChunks ==> table.uploadChunks[h].hash == h && table.uploadChunks[h] in refs)
  {
    if refs != [] {
      var front, last := refs[..|refs| - 1], refs[|refs| - 1];
      TableShape(front);
      assert HashesOf(refs) == HashesOf(front) + [last.hash];
      assert refs == front + [last];
    }
  }

  /** The reference kept for a hash is its first. */
  lemma {:induction false} TableKeepsFirst(refs: seq<ChunkRef>, i: nat)
    requires i < |refs| && refs[i].hash !in HashesOf(refs[..i])
    ensures refs[i].hash in TableOf(refs).uploadChunks && TableOf(refs).uploadChunks[refs[i].hash] == refs[i]
  {
    var n := |refs| - 1;
    if i < n {
      assert refs[..n][..i] == refs[..i];
      TableKeepsFirst(refs[..n], i);
    } else {
      TableShape(refs[..n]);
    }
  }

  function AddFound(table: ChunkTable, own: ChunkTable, hash: Digest): ChunkTable {
    if hash in own.uploadChunks then AddRef(table, own.uploadChunks[hash]) else table
  }

  /** Take over the first `k` hashes of `own` into `table`. */
  function Overlay(table: ChunkTable, own: ChunkTable, k: nat): ChunkTable
    requires k <= |own.uniqueHashes|
  {
    if k == 0 then table else AddFound(Overlay(table, own, k - 1), own, own.uniqueHashes[k - 1])
  }

  lemma {:induction false} OverlayOfLonger(table: ChunkTable, own: ChunkTable, r: ChunkRef, k: nat)
    requires r.hash !in own.uniqueHashes && r.hash !in own.uploadChunks && k <= |own.uniqueHashes|
    ensures Overlay(table, AddRef(own, r), k) == Overlay(table, own, k)
  {
    if k > 0 {
      OverlayOfLonger(table, own, r, k - 1);
      assert own.uniqueHashes[k - 1] in own.uniqueHashes;
    }
  }

  /** A hash that is new to the second part is taken over last. */
  lemma {:induction false} OverlayOfNew(table: ChunkTable, own: ChunkTable, r: ChunkRef)
    requires r.hash !in own.uniqueHashes && r.hash !in own.uploadChunks
    ensures var longer := AddRef(own, r);
            Overlay(table, longer, |longer.uniqueHashes|) == AddRef(Overlay(table, own, |own.uniqueHashes|), r)
  {
    var n, longer := |own.uniqueHashes|, AddRef(own, r);
    OverlayOfLonger(table, own, r, n);
    assert longer.uniqueHashes[n] == r.hash && longer.uploadChunks[r.hash] == r;
    assert Overlay(table, longer, n + 1) == AddFound(Overlay(table, longer, n), longer, r.hash);
  }

  /** Deduplicating two parts apart and merging them deduplicates the whole. */
  lemma {:induction false} OverlayIsTableOfBoth(a: seq<ChunkRef>, b: seq<ChunkRef>)
    ensures Overlay(TableOf(a), TableOf(b), |TableOf(b).uniqueHashes|) == TableOf(a + b)
  {
    if b == [] {
      assert a + b == a;
    } else {
      var front, last := b[..|b| - 1], b[|b| - 1];
      OverlayIsTableOfBoth(a, front);
      assert a + b == (a + front) + [last] && b == front + [last];
      TableSnoc(a + front, last);
      TableSnoc(front, last);
      TableShape(front);
      if last.hash in TableOf(front).uploadChunks {
        HashesStay(a, front, last.hash);
      } else {
        OverlayOfNew(TableOf(a), TableOf(front), last);
      }
    }
  }

  lemma {:induction false} HashesStay(a: seq<ChunkRef>, b: seq<ChunkRef>, h: Digest)
    requires h in TableOf(b).uploadChunks
    ensures h in TableOf(a + b).uploadChunks
  {
    TableShape(b);
    var i :| 0 <= i < |b| && HashesOf(b)[i] == h;
    assert HashesOf(a + b)[|a| + i] == h;
    TableShape(a + b);
  }

  // ---------------------------------------------------------------------------------------
  // A range of files, and the whole batch
  // ---------------------------------------------------------------------------------------

  datatype PartialPlan = PartialPlan(indexedCommitFiles: seq<(int, CommitFile)>, table: ChunkTable)

  datatype BatchPlan = BatchPlan(commitFiles: seq<CommitFile>, table: ChunkTable)

  function RefsOfAll(planned: seq<Planned>): seq<ChunkRef> {
    if planned == [] then [] else RefsOfAll(planned[..|planned| - 1]) + planned[|planned| - 1].refs
  }

  function CommitsOf(planned: seq<Planned>): (commits: seq<CommitFile>)
    ensures |commits| == |planned| && forall i :: 0 <= i < |planned| ==> commits[i] == planned[i].commit
  {
    seq(|planned|, i requires 0 <= i < |planned| => planned[i].commit)
  }

  function IndexedFrom(start: int, commits: seq<CommitFile>): (indexed: seq<(int, CommitFile)>)
    ensures |indexed| == |commits| && forall i :: 0 <= i < |commits| ==> indexed[i] == (start + i, commits[i])
  {
    seq(|commits|, i requires 0 <= i < |commits| => (start + i, commits[i]))
  }

  /** One worker planning everything: the first failing file decides. */
  function PlanAll(files: seq<PendingPushFile>, os: seq<FileReads>, config: BlobConfig): (r: Result<seq<Planned>, PlanError>)
    requires |os| == |files|
    ensures r.Ok? ==> |r.value| == |files|
  {
    if files == [] then Ok([])
    else
      var n := |files| - 1;
      AndThen(PlanAll(files[..n], os[..n], config), PlanFile(files[n], os[n], config))
  }

  function AndThen(before: Result<seq<Planned>, PlanError>, last: Result<Planned, PlanError>): Result<seq<Planned>, PlanError> {
    if before.Err? then before
    else if last.Err? then Err(last.error)
    else Ok(before.value + [last.value])
  }

  function PartialOf(start: int, planned: seq<Planned>): PartialPlan {
    PartialPlan(IndexedFrom(start, CommitsOf(planned)), TableOf(RefsOfAll(planned)))
  }

  function PlanOf(planned: seq<Planned>): BatchPlan {
    BatchPlan(CommitsOf(planned), TableOf(RefsOfAll(planned)))
  }

  /** The plan a single worker makes of the whole batch. */
  function SequentialPlan(files: seq<PendingPushFile>, os: seq<FileReads>, config: BlobConfig): Result<BatchPlan, PlanError>
    requires |os| == |files|
  {
    var planned := PlanAll(files, os, config);
    if planned.Ok? then Ok(PlanOf(planned.value)) else Err(planned.error)
  }

  method PlanPushBatchRange(startIndex: nat, files: seq<PendingPushFile>, os: seq<FileReads>, config: BlobConfig)
    returns (outcome: Result<PartialPlan, PlanError>)
    requires |os| == |files|
    ensures var planned := PlanAll(files, os, config);
            outcome == if planned.Ok? then Ok(PartialOf(startIndex, planned.value)) else Err(planned.error)
  {
    var indexedCommitFiles: seq<(int, CommitFile)> := [];
    var table := EMPTY_TABLE;
    ghost var done: seq<Planned> := [];
    for n := 0 to |files|
      invariant PlanAll(files[..n], os[..n], config) == Ok(done)
      invariant indexedCommitFiles == IndexedFrom(startIndex, CommitsOf(done)) && |done| == n
      invariant table == TableOf(RefsOfAll(done))
    {
      PlanAllStep(files, os, config, n);
      var plannedFile := PlanFileChunks(files[n], os[n], config);
      if plannedFile.Err? {
        PlanAllFirstError(files, os, config, n + 1);
        return Err(plannedFile.error);
      }
      PartialSnoc(startIndex, done, plannedFile.value);
      table := AddRefs(RefsOfAll(done), plannedFile.value.refs, table);
      indexedCommitFiles := indexedCommitFiles + [(startIndex + n, plannedFile.value.commit)];
      done := done + [plannedFile.value];
    }
    assert files[..|files|] == files && os[..|os|] == os;
    outcome := Ok(PartialPlan(indexedCommitFiles, table));
  }

  lemma {:induction false} PartialSnoc(start: int, done: seq<Planned>, next: Planned)
    ensures CommitsOf(done + [next]) == CommitsOf(done) + [next.commit]
    ensures IndexedFrom(start, CommitsOf(done + [next])) == IndexedFrom(start, CommitsOf(done)) + [(start + |done|, next.commit)]
    ensures RefsOfAll(done + [next]) == RefsOfAll(done) + next.refs
  {
    assert (done + [next])[..|done|] == done;
  }

  /** The inner loop over the chunks of one file. */
  method AddRefs(ghost before: seq<ChunkRef>, refs: seq<ChunkRef>, soFar: ChunkTable) returns (table: ChunkTable)
    requires soFar == TableOf(before)
    ensures table == TableOf(before + refs)
  {
    var uniqueHashes, uploadChunks := soFar.uniqueHashes, soFar.uploadChunks;
    assert before + refs[..0] == before;
    for k := 0 to |refs|
      invariant ChunkTable(uniqueHashes, uploadChunks) == TableOf(before + refs[..k])
    {
      assert before + refs[..k + 1] == (before + refs[..k]) + [refs[k]];
      TableSnoc(before + refs[..k], refs[k]);
      var hash := refs[k].hash;
      if hash !in uploadChunks {
        uniqueHashes := uniqueHashes + [hash];
        uploadChunks := uploadChunks[hash := refs[k]];
      }
    }
    assert refs[..|refs|] == refs;
    table := ChunkTable(uniqueHashes, uploadChunks);
  }

  lemma {:induction false} PlanAllStep(files: seq<PendingPushFile>, os: seq<FileReads>, config: BlobConfig, n: nat)
    requires |os| == |files| && n < |files|
    ensures PlanAll(files[..n + 1], os[..n + 1], config) ==
            AndThen(PlanAll(files[..n], os[..n], config), PlanFile(files[n], os[n], config))
  {
    assert files[..n + 1][..n] == files[..n] && os[..n + 1][..n] == os[..n];
  }

  lemma {:induction false} PlanAllSnoc(files: seq<PendingPushFile>, os: seq<FileReads>, file: PendingPushFile, o: FileReads, config: BlobConfig)
    requires |os| == |files|
    ensures PlanAll(files + [file], os + [o], config) == AndThen(PlanAll(files, os, config), PlanFile(file, o, config))
  {
    var n := |files|;
    assert (files + [file])[..n] == files && (os + [o])[..n] == os;
  }

  lemma {:induction false} PlanAllFirstError(files: seq<PendingPushFile>, os: seq<FileReads>, config: BlobConfig, n: nat)
    requires |os| == |files| && n <= |files|
    requires PlanAll(files[..n], os[..n], config).Err?
    ensures PlanAll(files, os, config) == PlanAll(files[..n], os[..n], config)
    decreases |files|
  {
    if n == |files| {
      assert files[..n] == files && os[..n] == os;
    } else {
      var m := |files| - 1;
      assert files[..m][..n] == files[..n] && os[..m][..n] == os[..n];
      PlanAllFirstError(files[..m], os[..m], config, n);
    }
  }

  function Both(first: Result<seq<Planned>, PlanError>, second: Result<seq<Planned>, PlanError>): Result<seq<Planned>, PlanError> {
    if first.Err? then first
    else if second.Err? then second
    else Ok(first.value + second.value)
  }

  lemma {:induction false} PlanAllAppend(a: seq<PendingPushFile>, oa: seq<FileReads>, b: seq<PendingPushFile>, ob: seq<FileReads>, config: BlobConfig)
    requires |a| == |oa| && |b| == |ob|
    ensures PlanAll(a + b, oa + ob, config) == Both(PlanAll(a, oa, config), PlanAll(b, ob, config))
    decreases |b|
  {
    var first := PlanAll(a, oa, config);
    if b == [] {
      assert a + b == a && oa + ob == oa;
      assert first.Ok? ==> first.value + [] == first.value;
    } else {
      var n := |b| - 1;
      PlanAllAppend(a, oa, b[..n], ob[..n], config);
      assert a + b == (a + b[..n]) + [b[n]] && oa + ob == (oa + ob[..n]) + [ob[n]];
      PlanAllSnoc(a + b[..n], oa + ob[..n], b[n], ob[n], config);
      var second, last := PlanAll(b[..n], ob[..n], config), PlanFile(b[n], ob[n], config);
      if first.Ok? && second.Ok? && last.Ok? {
        assert (first.value + second.value) + [last.value] == first.value + (second.value + [last.value]);
      }
    }
  }

  lemma {:induction false} RefsOfAllAppend(a: seq<Planned>, b: seq<Planned>)
    ensures RefsOfAll(a + b) == RefsOfAll(a) + RefsOfAll(b)
    decreases |b|
  {
    if b == [] {
      assert a + b == a;
    } else {
      var n := |b| - 1;
      RefsOfAllAppend(a, b[..n]);
      assert (a + b)[..|a + b| - 1] == a + b[..n];
      assert RefsOfAll(a) + (RefsOfAll(b[..n]) + b[n].refs) == (RefsOfAll(a) + RefsOfAll(b[..n])) + b[n].refs;
    }
  }

  // ---------------------------------------------------------------------------------------
  // Merging the workers' plans
  // ---------------------------------------------------------------------------------------

  /** `sort_by_key` on the index: stable, so a plan already in order stays as it is. */
  function InsertByIndex(item: (int, CommitFile), sorted: seq<(int, CommitFile)>): seq<(int, CommitFile)> {
    if sorted == [] then [item]
    else if sorted[|sorted| - 1].0 <= item.0 then sorted + [item]
    else InsertByIndex(item, sorted[..|sorted| - 1]) + [sorted[|sorted| - 1]]
  }

  function SortByIndex(items: seq<(int, CommitFile)>): seq<(int, CommitFile)> {
    if items == [] then [] else InsertByIndex(items[|items| - 1], SortByIndex(items[..|items| - 1]))
  }

  lemma {:induction false} SortByIndexOfSorted(items: seq<(int, CommitFile)>)
    requires forall i, j :: 0 <= i < j < |items| ==> items[i].0 <= items[j].0
    ensures SortByIndex(items) == items
  {
    if items != [] {
      SortByIndexOfSorted(items[..|items| - 1]);
    }
  }

  /** The partial plans of consecutive groups of files. */
  ghost predicate PartialsOf(partials: seq<PartialPlan>, groups: seq<seq<Planned>>) {
    |partials| == |groups| &&
    forall i :: 0 <= i < |groups| ==> partials[i] == PartialOf(|Concat(groups[..i])|, groups[i])
  }

  lemma {:induction false} IndexedAppend(a: seq<Planned>, b: seq<Planned>)
    ensures IndexedFrom(0, CommitsOf(a + b)) == IndexedFrom(0, CommitsOf(a)) + IndexedFrom(|a|, CommitsOf(b))
  {
  }

  /** One partial plan more, merged into the plan of the groups before it. */
  lemma {:induction false} MergeStep(groups: seq<seq<Planned>>, n: nat)
    requires n < |groups|
    ensures var before := Concat(groups[..n]);
            var after := Concat(groups[..n + 1]);
            IndexedFrom(0, CommitsOf(after)) == IndexedFrom(0, CommitsOf(before)) + IndexedFrom(|before|, CommitsOf(groups[n])) &&
            RefsOfAll(after) == RefsOfAll(before) + RefsOfAll(groups[n])
  {
    assert groups[..n + 1] == groups[..n] + [groups[n]];
    ConcatSnoc(groups[..n], groups[n]);
    IndexedAppend(Concat(groups[..n]), groups[n]);
    RefsOfAllAppend(Concat(groups[..n]), groups[n]);
  }

  method MergePartialPushBatchPlans(partials: seq<PartialPlan>, ghost groups: seq<seq<Planned>>) returns (plan: BatchPlan)
    requires PartialsOf(partials, groups)
    ensures plan == PlanOf(Concat(groups))
  {
    var indexedCommitFiles: seq<(int, CommitFile)> := [];
    var table := EMPTY_TABLE;
    for n := 0 to |partials|
      invariant indexedCommitFiles == IndexedFrom(0, CommitsOf(Concat(groups[..n])))
      invariant table == TableOf(RefsOfAll(Concat(groups[..n])))
    {
      MergeStep(groups, n);
      indexedCommitFiles := indexedCommitFiles + partials[n].indexedCommitFiles;
      table := MergeTable(RefsOfAll(Concat(groups[..n])), RefsOfAll(groups[n]), table, partials[n].table);
    }
    assert groups[..|partials|] == groups;
    var commitFiles := SortedCommitFiles(indexedCommitFiles, CommitsOf(Concat(groups)));
    plan := BatchPlan(commitFiles, table);
  }

  method SortedCommitFiles(indexed: seq<(int, CommitFile)>, ghost commits: seq<CommitFile>) returns (commitFiles: seq<CommitFile>)
    requires indexed == IndexedFrom(0, commits)
    ensures commitFiles == commits
  {
    SortByIndexOfSorted(indexed);
    var sorted := SortByIndex(indexed);
    commitFiles := seq(|sorted|, i requires 0 <= i < |sorted| => sorted[i].1);
  }

  /** The inner loop of the merge: take over, and remove from the partial plan, what is new. */
  method MergeTable(ghost before: seq<ChunkRef>, ghost own: seq<ChunkRef>, soFar: ChunkTable, partial_: ChunkTable)
    returns (table: ChunkTable)
    requires soFar == TableOf(before) && partial_ == TableOf(own)
    ensures table == TableOf(before + own)
  {
    OverlayIsTableOfBoth(before, own);
    TableShape(own);
    table := TakeOverNew(soFar, partial_);
  }

  method TakeOverNew(soFar: ChunkTable, partial_: ChunkTable) returns (table: ChunkTable)
    requires Distinct(partial_.uniqueHashes)
    requires forall h :: h in partial_.uploadChunks ==> partial_.uploadChunks[h].hash == h
    ensures table == Overlay(soFar, partial_, |partial_.uniqueHashes|)
  {
    var uniqueHashes, uploadChunks := soFar.uniqueHashes, soFar.uploadChunks;
    var available := partial_.uploadChunks;
    for k := 0 to |partial_.uniqueHashes|
      invariant ChunkTable(uniqueHashes, uploadChunks) == Overlay(soFar, partial_, k)
      invariant forall i :: k <= i < |partial_.uniqueHashes| ==>
                  Get(available, partial_.uniqueHashes[i]) == Get(partial_.uploadChunks, partial_.uniqueHashes[i])
    {
      var hash := partial_.uniqueHashes[k];
      if hash in uploadChunks {
        continue;
      }
      if hash in available {
        var chunkRef := available[hash];
        available := available - {hash};
        uniqueHashes := uniqueHashes + [hash];
        uploadChunks := uploadChunks[hash := chunkRef];
      }
    }
    table := ChunkTable(uniqueHashes, uploadChunks);
  }

  // ---------------------------------------------------------------------------------------
  // Parallel planning
  // ---------------------------------------------------------------------------------------

  function CeilDiv(n: nat, d: nat): nat
    requires d > 0
  {
    (n + d - 1) / d
  }

  /**
   `plan_push_batch`: however many workers share the files, the plan and the first error are
   those of one worker. Workers share nothing, so each range is planned to its end before the
   results are joined in order.
   */
  method PlanPushBatch(files: seq<PendingPushFile>, os: seq<FileReads>, config: BlobConfig, workerCount: nat)
    returns (plan: Result<BatchPlan, PlanError>)
    requires |os| == |files|
    ensures plan == SequentialPlan(files, os, config)
  {
    if workerCount <= 1 {
      var whole := PlanPushBatchRange(0, files, os, config);
      assert files[0..|files|] == files && os[0..|files|] == os;
      plan := JoinResults(files, os, config, [0, |files|], [whole]);
      return;
    }
    var cuts, results := PlanRanges(files, os, config, CeilDiv(|files|, workerCount));
    plan := JoinResults(files, os, config, cuts, results);
  }

  /** Every worker's range, from `cuts[i]` to `cuts[i + 1]`. */
  method PlanRanges(files: seq<PendingPushFile>, os: seq<FileReads>, config: BlobConfig, filesPerWorker: nat)
    returns (cuts: seq<nat>, results: seq<Result<PartialPlan, PlanError>>)
    requires |os| == |files| && (files != [] ==> filesPerWorker > 0)
    ensures |cuts| == |results| + 1 && cuts[0] == 0 && cuts[|results|] == |files|
    ensures RangesPlanned(files, os, config, cuts, results)
  {
    results, cuts := [], [0];
    var at := 0;
    while at < |files|
      invariant |cuts| == |results| + 1 && cuts[0] == 0 && cuts[|results|] == at <= |files|
      invariant RangesPlanned(files, os, config, cuts, results)
    {
      var end := if at + filesPerWorker < |files| then at + filesPerWorker else |files|;
      var result := PlanPushBatchRange(at, files[at..end], os[at..end], config);
      OneMoreRange(files, os, config, cuts, results, end, result);
      cuts, results, at := cuts + [end], results + [result], end;
    }
  }

  /** `result` is what a worker makes of the files from `from` to `to`. */
  ghost predicate RangeResult(files: seq<PendingPushFile>, os: seq<FileReads>, config: BlobConfig,
                              from: nat, to: nat, result: Result<PartialPlan, PlanError>)
    requires |os| == |files|
  {
    from <= to <= |files| &&
    var planned := PlanAll(files[from..to], os[from..to], config);
    result == if planned.Ok? then Ok(PartialOf(from, planned.value)) else Err(planned.error)
  }

  ghost predicate RangesPlanned(files: seq<PendingPushFile>, os: seq<FileReads>, config: BlobConfig,
                                cuts: seq<nat>, results: seq<Result<PartialPlan, PlanError>>)
    requires |os| == |files| && |cuts| == |results| + 1
  {
    forall i {:trigger results[i]} :: 0 <= i < |results| ==> RangeResult(files, os, config, cuts[i], cuts[i + 1], results[i])
  }

  lemma {:induction false} OneMoreRange(files: seq<PendingPushFile>, os: seq<FileReads>, config: BlobConfig,
                                        cuts: seq<nat>, results: seq<Result<PartialPlan, PlanError>>, to: nat, result: Result<PartialPlan, PlanError>)
    requires |os| == |files| && |cuts| == |results| + 1 && RangesPlanned(files, os, config, cuts, results)
    requires RangeResult(files, os, config, cuts[|results|], to, result)
    ensures RangesPlanned(files, os, config, cuts + [to], results + [result])
  {
    forall i | 0 <= i <= |results| ensures RangeResult(files, os, config, (cuts + [to])[i], (cuts + [to])[i + 1], (results + [result])[i]) {
      if i < |results| {
        assert RangeResult(files, os, config, cuts[i], cuts[i + 1], results[i]);
      }
    }
  }

  lemma {:induction false} PlanAllExtend(files: seq<PendingPushFile>, os: seq<FileReads>, config: BlobConfig, at: nat, to: nat)
    requires |os| == |files| && at <= to <= |files|
    ensures PlanAll(files[..to], os[..to], config) ==
            Both(PlanAll(files[..at], os[..at], config), PlanAll(files[at..to], os[at..to], config))
  {
    PlanAllAppend(files[..at], os[..at], files[at..to], os[at..to], config);
    assert files[..at] + files[at..to] == files[..to] && os[..at] + os[at..to] == os[..to];
  }

  /** Joining the workers in order: the first error wins, else everything is merged. */
  method JoinResults(files: seq<PendingPushFile>, os: seq<FileReads>, config: BlobConfig,
                     cuts: seq<nat>, results: seq<Result<PartialPlan, PlanError>>)
    returns (plan: Result<BatchPlan, PlanError>)
    requires |os| == |files| && |cuts| == |results| + 1 && cuts[0] == 0 && cuts[|results|] == |files|
    requires RangesPlanned(files, os, config, cuts, results)
    ensures plan == SequentialPlan(files, os, config)
  {
    var partials: seq<PartialPlan> := [];
    ghost var groups: seq<seq<Planned>> := [];
    for i := 0 to |results|
      invariant cuts[i] <= |files|
      invariant PartialsOf(partials, groups) && |groups| == i
      invariant PlanAll(files[..cuts[i]], os[..cuts[i]], config) == Ok(Concat(groups))
    {
      ghost var at, to := cuts[i], cuts[i + 1];
      assert RangeResult(files, os, config, at, to, results[i]);
      PlanAllExtend(files, os, config, at, to);
      if results[i].Err? {
        PlanAllFirstError(files, os, config, to);
        return Err(results[i].error);
      }
      ghost var own := PlanAll(files[at..to], os[at..to], config).value;
      PartialsSnoc(partials, groups, results[i].value, own);
      ConcatSnoc(groups, own);
      partials := partials + [results[i].value];
      groups := groups + [own];
    }
    assert files[..|files|] == files && os[..|os|] == os;
    var merged := MergePartialPushBatchPlans(partials, groups);
    plan := Ok(merged);
  }

  lemma {:induction false} PartialsSnoc(partials: seq<PartialPlan>, groups: seq<seq<Planned>>, next: PartialPlan, own: seq<Planned>)
    requires PartialsOf(partials, groups) && next == PartialOf(|Concat(groups)|, own)
    ensures PartialsOf(partials + [next], groups + [own])
  {
    forall i | 0 <= i <= |groups| ensures (partials + [next])[i] == PartialOf(|Concat((groups + [own])[..i])|, (groups + [own])[i]) {
      assert (groups + [own])[..i] == groups[..i];
      assert groups[..|groups|] == groups;
    }
  }

  // ---------------------------------------------------------------------------------------
  // What a plan promises
  // ---------------------------------------------------------------------------------------

  /** The chunks a list of commit files names. */
  ghost predicate Names(commits: seq<CommitFile>, h: Digest) {
    exists i :: 0 <= i < |commits| && h in commits[i].chunks
  }

  lemma {:induction false} RefsOfAllHashes(planned: seq<Planned>, h: Digest)
    requires forall i :: 0 <= i < |planned| ==> HashesOf(planned[i].refs) == planned[i].commit.chunks
    ensures h in HashesOf(RefsOfAll(planned)) <==> Names(CommitsOf(planned), h)
  {
    if planned != [] {
      var n := |planned| - 1;
      RefsOfAllHashes(planned[..n], h);
      var commits, front := CommitsOf(planned), CommitsOf(planned[..n]);
      assert HashesOf(RefsOfAll(planned)) == HashesOf(RefsOfAll(planned[..n])) + HashesOf(planned[n].refs);
      if Names(commits, h) {
        var i :| 0 <= i < |commits| && h in commits[i].chunks;
        assert i < n ==> h in front[i].chunks;
      }
      if Names(front, h) {
        var i :| 0 <= i < |front| && h in front[i].chunks;
        assert h in commits[i].chunks;
      }
      if h in commits[n].chunks {
        assert h in HashesOf(planned[n].refs);
      }
    }
  }

  /** The files in input order, each with its queued content; the hashes once each, all of them and no others. */
  lemma {:induction false} PlanPromises(files: seq<PendingPushFile>, os: seq<FileReads>, config: BlobConfig)
    requires |os| == |files| && SequentialPlan(files, os, config).Ok?
    ensures var plan := SequentialPlan(files, os, config).value;
            |plan.commitFiles| == |files| &&
            (forall i :: 0 <= i < |files| ==> CommitsQueuedFile(config, files[i], plan.commitFiles[i])) &&
            Distinct(plan.table.uniqueHashes) &&
            (forall h :: h in plan.table.uniqueHashes <==> h in plan.table.uploadChunks) &&
            (forall h :: h in plan.table.uniqueHashes <==> Names(plan.commitFiles, h)) &&
            (forall h :: h in plan.table.uploadChunks ==> plan.table.uploadChunks[h].hash == h)
  {
    PlanAllElements(files, os, config);
    var planned := PlanAll(files, os, config).value;
    forall i | 0 <= i < |files|
      ensures CommitsQueuedFile(config, files[i], planned[i].commit) && HashesOf(planned[i].refs) == planned[i].commit.chunks
    {
      PlannedFileIsQueuedContent(files[i], os[i], config);
    }
    TableShape(RefsOfAll(planned));
    forall h ensures h in HashesOf(RefsOfAll(planned)) <==> Names(CommitsOf(planned), h) {
      RefsOfAllHashes(planned, h);
    }
  }

  /** The commit entry names chunks that put together are the content the file was queued with. */
  ghost predicate CommitsQueuedFile(config: BlobConfig, file: PendingPushFile, commit: CommitFile) {
    var content := ContentOf(config.chunkHashPrefix, commit.chunks);
    commit.path == file.remotePath && commit.contentType == file.contentType &&
    ContentHash(content) == commit.contentHash == file.contentHash &&
    |content| == commit.size == file.fileSize &&
    forall h :: h in commit.chunks ==> IsChunkHash(config.chunkHashPrefix, h)
  }

  lemma {:induction false} PlanAllElements(files: seq<PendingPushFile>, os: seq<FileReads>, config: BlobConfig)
    requires |os| == |files| && PlanAll(files, os, config).Ok?
    ensures forall i :: 0 <= i < |files| ==> PlanFile(files[i], os[i], config) == Ok(PlanAll(files, os, config).value[i])
  {
    if files != [] {
      PlanAllElements(files[..|files| - 1], os[..|files| - 1], config);
    }
  }

  /** The reads reach the end of the file, and spell out the content it was queued with. */
  predicate ReadsAsQueued(file: PendingPushFile, os: FileReads) {
    os.Reads? && os.reachesEnd && |Concat(os.pieces)| == file.fileSize && ContentHash(Concat(os.pieces)) == file.contentHash
  }

  predicate AllReadAsQueued(files: seq<PendingPushFile>, os: seq<FileReads>)
    requires |os| == |files|
  {
    forall i :: 0 <= i < |files| ==> ReadsAsQueued(files[i], os[i])
  }

  /** The file cannot be opened, cannot be read to its end, or is not what was queued. */
  predicate FailsWith(file: PendingPushFile, os: FileReads, error: PlanError) {
    error.path == file.localPath &&
    match error
    case OpenFailed(_) => os.Unopenable?
    case ReadFailed(_) => os.Reads? && !os.reachesEnd
    case FileChanged(_) => os.Reads? && os.reachesEnd && !ReadsAsQueued(file, os)
  }

  ghost predicate FirstFailure(files: seq<PendingPushFile>, os: seq<FileReads>, i: nat, error: PlanError)
    requires |os| == |files|
  {
    i < |files| && AllReadAsQueued(files[..i], os[..i]) && FailsWith(files[i], os[i], error)
  }

  /** A batch is planned if and only if every file still reads as it was queued; otherwise the error is that of the first that does not. */
  lemma {:induction false} PlansIffUnchanged(files: seq<PendingPushFile>, os: seq<FileReads>, config: BlobConfig)
    requires |os| == |files|
    ensures SequentialPlan(files, os, config).Ok? <==> AllReadAsQueued(files, os)
    ensures SequentialPlan(files, os, config).Err? ==> exists i :: FirstFailure(files, os, i, SequentialPlan(files, os, config).error)
  {
    if files != [] {
      var n := |files| - 1;
      PlansIffUnchanged(files[..n], os[..n], config);
      assert AllReadAsQueued(files, os) <==> AllReadAsQueued(files[..n], os[..n]) && ReadsAsQueued(files[n], os[n]);
      var front := PlanAll(files[..n], os[..n], config);
      if front.Err? {
        var i: nat :| FirstFailure(files[..n], os[..n], i, front.error);
        assert files[..n][..i] == files[..i] && os[..n][..i] == os[..i];
        assert FirstFailure(files, os, i, front.error);
      } else if PlanFile(files[n], os[n], config).Err? {
        assert FirstFailure(files, os, n, PlanFile(files[n], os[n], config).error);
      }
    }
  }

  /** Where this reference points, the file has a chunk of that hash. */
  ghost predicate PointsInto(prefix: Bytes, r: ChunkRef, file: PendingPushFile, os: FileReads) {
    r.localPath == file.localPath && os.Reads? &&
    var content := Concat(os.pieces);
    r.offset + r.len <= |content| && ChunkHash(prefix, content[r.offset..r.offset + r.len]) == r.hash
  }

  lemma {:induction false} PieceInPlace(pieces: seq<Bytes>, i: nat)
    requires i < |pieces|
    ensures |Concat(pieces[..i])| + |pieces[i]| <= |Concat(pieces)|
    ensures Concat(pieces)[|Concat(pieces[..i])|..|Concat(pieces[..i])| + |pieces[i]|] == pieces[i]
  {
    assert pieces == pieces[..i] + ([pieces[i]] + pieces[i + 1..]);
    ConcatAppend(pieces[..i], [pieces[i]] + pieces[i + 1..]);
    assert ([pieces[i]] + pieces[i + 1..])[1..] == pieces[i + 1..];
  }

  lemma {:induction false} RefsPointInto(files: seq<PendingPushFile>, os: seq<FileReads>, config: BlobConfig, r: ChunkRef)
    requires |os| == |files| && PlanAll(files, os, config).Ok? && r in RefsOfAll(PlanAll(files, os, config).value)
    ensures exists i :: 0 <= i < |files| && PointsInto(config.chunkHashPrefix, r, files[i], os[i])
  {
    var n := |files| - 1;
    var planned := PlanAll(files, os, config).value;
    assert planned[..n] == PlanAll(files[..n], os[..n], config).value;
    if r in planned[n].refs {
      var k :| 0 <= k < |planned[n].refs| && planned[n].refs[k] == r;
      PieceInPlace(os[n].pieces, k);
    } else {
      RefsPointInto(files[..n], os[..n], config, r);
      var i :| 0 <= i < n && PointsInto(config.chunkHashPrefix, r, files[..n][i], os[..n][i]);
      assert PointsInto(config.chunkHashPrefix, r, files[i], os[i]);
    }
  }

  /** Every chunk to upload is read again from where it was: a file of the batch has it at that offset. */
  lemma {:induction false} TablePointsIntoFiles(files: seq<PendingPushFile>, os: seq<FileReads>, config: BlobConfig, h: Digest)
    requires |os| == |files| && SequentialPlan(files, os, config).Ok? && h in SequentialPlan(files, os, config).value.table.uploadChunks
    ensures var r := SequentialPlan(files, os, config).value.table.uploadChunks[h];
            r.hash == h && exists i :: 0 <= i < |files| && PointsInto(config.chunkHashPrefix, r, files[i], os[i])
  {
    var planned := PlanAll(files, os, config).value;
    TableShape(RefsOfAll(planned));
    RefsPointInto(files, os, config, TableOf(RefsOfAll(planned)).uploadChunks[h]);
  }
}
