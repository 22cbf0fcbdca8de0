/**
 The per-relationship metadata store: hash-bucketed documents with a lazy migration from two
 older layouts. Every operation is specified on one plain map from remote path to record.
 */
module MetadataStore {
  import opened Prelude
  import opened Chunks

  datatype SyncStatus = Synced | PendingPush | PendingPull | Error

  /** The record of one file, but for the wall-clock time of its last sync. */
  datatype FileSyncMeta = FileSyncMeta(
    path: string,
    contentHash: Digest,
    size: nat,
    modifiedAt: int,
    status: SyncStatus)

  datatype SyncPathMigration = SyncPathMigration(
    oldRemotePath: string,
    newRemotePath: string,
    oldLocalPath: string,
    newLocalPath: string)

  type View = map<string, FileSyncMeta>

  // ---------------------------------------------------------------------------------------
  // The state database: documents by key
  // ---------------------------------------------------------------------------------------

  datatype Key =
    | FileKey(rel: string, pathHash: string)    // one document per file, the first layout
    | IndexKey(rel: string)                     // one document for all files, the second
    | ManifestKey(rel: string)                  // marks the bucketed layout as current
    | BucketKey(rel: string, bucket: string)
    | CheckpointKey(rel: string)
    | MigrationKey(rel: string)

  /** A bucket document only deserializes once some write has given it a version. */
  datatype Doc =
    | MetaDoc(meta: FileSyncMeta)
    | IndexDoc(entries: View)
    | ManifestDoc
    | BucketDoc(versioned: bool, items: map<string, FileSyncMeta>)
    | CheckpointDoc(rootHash: string)
    | MigrationDoc(migration: SyncPathMigration)

  type Database = map<Key, Doc>

  /** `blake3(path)` in hex. */
  type PathHash = string -> string

  ghost predicate CollisionFree(hash: PathHash) {
    forall p, q :: hash(p) == hash(q) ==> p == q
  }

  /** `file_meta_bucket_from_hash`: the first three characters. */
  function Bucket(pathHash: string): string {
    if |pathHash| < 3 then pathHash else pathHash[..3]
  }

  function BucketKeyFor(rel: string, pathHash: string): Key {
    BucketKey(rel, Bucket(pathHash))
  }

  ghost predicate ValidDoc(hash: PathHash, key: Key, doc: Doc) {
    match key
    case FileKey(_, h) => doc.MetaDoc? && hash(doc.meta.path) == h
    case IndexKey(_) => doc.IndexDoc? && forall p :: p in doc.entries ==> doc.entries[p].path == p
    case ManifestKey(_) => doc.ManifestDoc?
    case BucketKey(_, b) =>
      doc.BucketDoc? && (doc.versioned || doc.items == map[]) &&
      forall h :: h in doc.items ==> hash(doc.items[h].path) == h && Bucket(h) == b
    case CheckpointKey(_) => doc.CheckpointDoc?
    case MigrationKey(_) => doc.MigrationDoc?
  }

  ghost predicate ValidDb(hash: PathHash, db: Database) {
    (forall key :: key in db ==> ValidDoc(hash, key, db[key])) &&
    (forall key :: key in db && key.BucketKey? ==> ManifestKey(key.rel) in db)
  }

  // ---------------------------------------------------------------------------------------
  // Reading
  // ---------------------------------------------------------------------------------------

  function Items(db: Database, key: Key): map<string, FileSyncMeta> {
    if key in db && db[key].BucketDoc? && db[key].versioned then db[key].items else map[]
  }

  function FileDocs(db: Database, rel: string): set<FileSyncMeta> {
    set key | key in db && key.FileKey? && key.rel == rel && db[key].MetaDoc? :: db[key].meta
  }

  function FilesByPath(hash: PathHash, db: Database, rel: string): View {
    map path | path in (set m | m in FileDocs(db, rel) :: m.path) &&
               FileKey(rel, hash(path)) in db && db[FileKey(rel, hash(path))].MetaDoc? ::
      db[FileKey(rel, hash(path))].meta
  }

  /** `load_legacy_file_meta_index`. */
  function LegacyIndex(hash: PathHash, db: Database, rel: string): View {
    if IndexKey(rel) in db && db[IndexKey(rel)].IndexDoc? then db[IndexKey(rel)].entries
    else FilesByPath(hash, db, rel)
  }

  /** `get_file_meta`. */
  function Lookup(hash: PathHash, db: Database, rel: string, path: string): Option<FileSyncMeta> {
    if ManifestKey(rel) in db then
      Get(Items(db, BucketKeyFor(rel, hash(path))), hash(path))
    else
      var index := LegacyIndex(hash, db, rel);
      if path in index then Some(index[path])
      else if FileKey(rel, hash(path)) in db && db[FileKey(rel, hash(path))].MetaDoc? then
        Some(db[FileKey(rel, hash(path))].meta)
      else None
  }

  function BucketMetas(db: Database, rel: string): set<FileSyncMeta> {
    set key, h | key in db && key.BucketKey? && key.rel == rel && h in Items(db, key) :: Items(db, key)[h]
  }

  function BucketsByPath(hash: PathHash, db: Database, rel: string): View {
    map path | path in (set m | m in BucketMetas(db, rel) :: m.path) &&
               hash(path) in Items(db, BucketKeyFor(rel, hash(path))) ::
      Items(db, BucketKeyFor(rel, hash(path)))[hash(path)]
  }

  /** The plain map a database stands for. */
  function ViewOf(hash: PathHash, db: Database, rel: string): View {
    if ManifestKey(rel) in db then BucketsByPath(hash, db, rel)
    else FilesByPath(hash, db, rel) + LegacyIndex(hash, db, rel)
  }

  /** What `list_file_metas` returns, by path. */
  function Listing(hash: PathHash, db: Database, rel: string): View {
    if ManifestKey(rel) in db then BucketsByPath(hash, db, rel)
    else if LegacyIndex(hash, db, rel) != map[] then LegacyIndex(hash, db, rel)
    else FilesByPath(hash, db, rel)
  }

  lemma {:induction false} FilesByPathIsLookup(hash: PathHash, db: Database, rel: string, path: string)
    requires CollisionFree(hash) && ValidDb(hash, db)
    ensures path in FilesByPath(hash, db, rel) <==> FileKey(rel, hash(path)) in db
    ensures path in FilesByPath(hash, db, rel) ==> FilesByPath(hash, db, rel)[path].path == path
  {
    var key := FileKey(rel, hash(path));
    if key in db {
      assert ValidDoc(hash, key, db[key]);
      assert db[key].meta in FileDocs(db, rel);
    }
  }

  lemma {:induction false} BucketsByPathIsLookup(hash: PathHash, db: Database, rel: string, path: string)
    requires CollisionFree(hash) && ValidDb(hash, db)
    ensures Get(BucketsByPath(hash, db, rel), path) == Get(Items(db, BucketKeyFor(rel, hash(path))), hash(path))
    ensures path in BucketsByPath(hash, db, rel) ==> BucketsByPath(hash, db, rel)[path].path == path
  {
    var key := BucketKeyFor(rel, hash(path));
    if hash(path) in Items(db, key) {
      assert ValidDoc(hash, key, db[key]);
      assert Items(db, key)[hash(path)] in BucketMetas(db, rel);
    }
  }

  /** `get_file_meta` reads the map. */
  lemma {:induction false} LookupReadsView(hash: PathHash, db: Database, rel: string, path: string)
    requires CollisionFree(hash) && ValidDb(hash, db)
    ensures Lookup(hash, db, rel, path) == Get(ViewOf(hash, db, rel), path)
    ensures path in ViewOf(hash, db, rel) ==> ViewOf(hash, db, rel)[path].path == path
  {
    FilesByPathIsLookup(hash, db, rel, path);
    BucketsByPathIsLookup(hash, db, rel, path);
    if IndexKey(rel) in db {
      assert ValidDoc(hash, IndexKey(rel), db[IndexKey(rel)]);
    }
  }

  lemma {:induction false} SameLookupsSameView(hash: PathHash, db: Database, rel: string, expected: View)
    requires CollisionFree(hash) && ValidDb(hash, db)
    requires forall path :: Lookup(hash, db, rel, path) == Get(expected, path)
    ensures ViewOf(hash, db, rel) == expected
  {
    forall path: string ensures Get(ViewOf(hash, db, rel), path) == Get(expected, path) {
      LookupReadsView(hash, db, rel, path);
    }
    SameGetsSameMap(ViewOf(hash, db, rel), expected);
  }

  lemma {:induction false} SameGetsSameMap<K(!new), V>(a: map<K, V>, b: map<K, V>)
    requires forall k :: Get(a, k) == Get(b, k)
    ensures a == b
  {
    forall k ensures k in a <==> k in b {
      assert Get(a, k) == Get(b, k);
    }
    forall k | k in a ensures a[k] == b[k] {
      assert Get(a, k) == Get(b, k);
    }
  }

  // ---------------------------------------------------------------------------------------
  // Writing
  // ---------------------------------------------------------------------------------------

  /** Records written one after another. */
  function WriteAll(view: View, metas: seq<FileSyncMeta>): View {
    if metas == [] then view
    else WriteAll(view, metas[..|metas| - 1])[metas[|metas| - 1].path := metas[|metas| - 1]]
  }

  /** The last record for a path. */
  function LastFor(metas: seq<FileSyncMeta>, path: string): Option<FileSyncMeta> {
    if metas == [] then None
    else if metas[|metas| - 1].path == path then Some(metas[|metas| - 1])
    else LastFor(metas[..|metas| - 1], path)
  }

  lemma {:induction false} WriteAllGets(view: View, metas: seq<FileSyncMeta>, path: string)
    ensures Get(WriteAll(view, metas), path) ==
            if LastFor(metas, path).Some? then LastFor(metas, path) else Get(view, path)
  {
    if metas != [] {
      WriteAllGets(view, metas[..|metas| - 1], path);
    }
  }

  /** `ensure_v2_storage` on the database: what the index shows goes into buckets. */
  ghost predicate Migrated(hash: PathHash, before: Database, after: Database, rel: string) {
    ManifestKey(rel) in after &&
    ViewOf(hash, after, rel) ==
      (if ManifestKey(rel) in before then ViewOf(hash, before, rel) else LegacyIndex(hash, before, rel)) &&
    OthersUntouched(before, after, rel)
  }

  /** Only file metadata of this relationship may differ. */
  ghost predicate OthersUntouched(before: Database, after: Database, rel: string) {
    forall key: Key :: key.rel != rel || key.CheckpointKey? || key.MigrationKey? ==> Get(after, key) == Get(before, key)
  }

  lemma {:induction false} OverlayIsTop(below: View, top: View)
    ensures below + top == top <==> below.Keys <= top.Keys
    ensures below + top == below <== top == map[]
  {
    assert (below + top).Keys == below.Keys + top.Keys;
    if below.Keys <= top.Keys {
      assert below + top == top;
    }
    if top == map[] {
      assert below + top == below;
    }
  }

  /** The path has a per-file document, but there is an index document that does not name it. */
  ghost predicate HiddenFile(hash: PathHash, db: Database, rel: string, path: string) {
    ManifestKey(rel) !in db && FileKey(rel, hash(path)) in db &&
    IndexKey(rel) in db && db[IndexKey(rel)].IndexDoc? && path !in db[IndexKey(rel)].entries
  }

  ghost predicate IndexCoversFiles(hash: PathHash, db: Database, rel: string) {
    forall path :: !HiddenFile(hash, db, rel, path)
  }

  lemma {:induction false} HiddenIsUnindexed(hash: PathHash, db: Database, rel: string, path: string)
    requires CollisionFree(hash) && ValidDb(hash, db) && ManifestKey(rel) !in db
    ensures HiddenFile(hash, db, rel, path) <==> path in FilesByPath(hash, db, rel) && path !in LegacyIndex(hash, db, rel)
    ensures Get(LegacyIndex(hash, db, rel), path) ==
            if HiddenFile(hash, db, rel, path) then None else Get(ViewOf(hash, db, rel), path)
  {
    FilesByPathIsLookup(hash, db, rel, path);
    if IndexKey(rel) in db {
      assert ValidDoc(hash, IndexKey(rel), db[IndexKey(rel)]);
    }
  }

  /** The migration forgets the hidden files and nothing else. */
  lemma {:induction false} MigrationForgetsHidden(hash: PathHash, before: Database, after: Database, rel: string, path: string)
    requires CollisionFree(hash) && ValidDb(hash, before) && Migrated(hash, before, after, rel)
    ensures Get(ViewOf(hash, after, rel), path) ==
            if HiddenFile(hash, before, rel, path) then None else Get(ViewOf(hash, before, rel), path)
  {
    if ManifestKey(rel) !in before {
      HiddenIsUnindexed(hash, before, rel, path);
    }
  }

  /** A hidden file is on the map all the same. */
  lemma {:induction false} HiddenIsMapped(hash: PathHash, db: Database, rel: string, path: string)
    requires CollisionFree(hash) && ValidDb(hash, db) && HiddenFile(hash, db, rel, path)
    ensures path in ViewOf(hash, db, rel)
  {
    FilesByPathIsLookup(hash, db, rel, path);
  }

  /** The migration preserves the map exactly when the index covers the per-file documents. */
  lemma {:induction false} MigrationPreservesViewIffCovered(hash: PathHash, before: Database, after: Database, rel: string)
    requires CollisionFree(hash) && ValidDb(hash, before) && Migrated(hash, before, after, rel)
    ensures ViewOf(hash, after, rel) == ViewOf(hash, before, rel) <==> IndexCoversFiles(hash, before, rel)
  {
    forall path: string
      ensures Get(ViewOf(hash, after, rel), path) ==
              if HiddenFile(hash, before, rel, path) then None else Get(ViewOf(hash, before, rel), path)
      ensures HiddenFile(hash, before, rel, path) ==> path in ViewOf(hash, before, rel)
    {
      MigrationForgetsHidden(hash, before, after, rel, path);
      if HiddenFile(hash, before, rel, path) {
        HiddenIsMapped(hash, before, rel, path);
      }
    }
    if IndexCoversFiles(hash, before, rel) {
      SameGetsSameMap(ViewOf(hash, after, rel), ViewOf(hash, before, rel));
    } else {
      var path :| HiddenFile(hash, before, rel, path);
      assert Get(ViewOf(hash, after, rel), path) == None;
    }
  }

  /** Some per-file document of the relationship holds this record. */
  ghost predicate HasFileDoc(db: Database, rel: string, meta: FileSyncMeta) {
    exists h :: FileKey(rel, h) in db && db[FileKey(rel, h)] == MetaDoc(meta)
  }

  /** From the first layout exactly the per-file documents come through the migration. */
  lemma {:induction false} FilesComeThroughMigration(
      hash: PathHash, before: Database, after: Database, rel: string, path: string, meta: FileSyncMeta)
    requires CollisionFree(hash) && ValidDb(hash, before) && ValidDb(hash, after)
    requires ManifestKey(rel) !in before && IndexKey(rel) !in before && Migrated(hash, before, after, rel)
    ensures Lookup(hash, after, rel, path) == Some(meta) <==>
            meta.path == path && HasFileDoc(before, rel, meta)
  {
    LookupReadsView(hash, after, rel, path);
    FilesByPathIsLookup(hash, before, rel, path);
    if h :| meta.path == path && FileKey(rel, h) in before && before[FileKey(rel, h)] == MetaDoc(meta) {
      assert ValidDoc(hash, FileKey(rel, h), before[FileKey(rel, h)]);
    }
    if Lookup(hash, after, rel, path) == Some(meta) {
      assert before[FileKey(rel, hash(path))] == MetaDoc(meta) by {
        assert ValidDoc(hash, FileKey(rel, hash(path)), before[FileKey(rel, hash(path))]);
      }
    }
  }

  /** From the second layout exactly the entries of the index document come through. */
  lemma {:induction false} IndexComesThroughMigration(
      hash: PathHash, before: Database, after: Database, rel: string, entries: View)
    requires ManifestKey(rel) !in before && IndexKey(rel) in before && before[IndexKey(rel)] == IndexDoc(entries)
    requires Migrated(hash, before, after, rel)
    ensures ViewOf(hash, after, rel) == entries
  {
  }

  /** Every record of the index document, or without one of the per-file documents, and no other. */
  ghost predicate ShowsAsStored(hash: PathHash, before: Database, after: Database, rel: string) {
    if IndexKey(rel) in before then before[IndexKey(rel)] == IndexDoc(ViewOf(hash, after, rel))
    else forall path, meta :: Lookup(hash, after, rel, path) == Some(meta) <==> meta.path == path && HasFileDoc(before, rel, meta)
  }

  lemma {:induction false} MigratedAsStored(hash: PathHash, before: Database, after: Database, rel: string)
    requires CollisionFree(hash) && ValidDb(hash, before) && ValidDb(hash, after)
    requires ManifestKey(rel) !in before && Migrated(hash, before, after, rel)
    ensures ShowsAsStored(hash, before, after, rel)
  {
    if IndexKey(rel) in before {
      assert ValidDoc(hash, IndexKey(rel), before[IndexKey(rel)]);
    } else {
      forall path, meta ensures Lookup(hash, after, rel, path) == Some(meta) <==> meta.path == path && HasFileDoc(before, rel, meta) {
        FilesComeThroughMigration(hash, before, after, rel, path, meta);
      }
    }
  }

  /**
   The listing shows the map exactly when the index document covers the files or is empty. In
   the one case left it shows the entries of the index document and nothing else.
   */
  lemma {:induction false} ListingIsViewIffCovered(hash: PathHash, db: Database, rel: string)
    requires CollisionFree(hash) && ValidDb(hash, db)
    ensures Listing(hash, db, rel) == ViewOf(hash, db, rel) <==>
            IndexCoversFiles(hash, db, rel) || db[IndexKey(rel)].entries == map[]
    ensures Listing(hash, db, rel) == ViewOf(hash, db, rel) || Listing(hash, db, rel) == db[IndexKey(rel)].entries
  {
    if ManifestKey(rel) !in db {
      var files, index := FilesByPath(hash, db, rel), LegacyIndex(hash, db, rel);
      forall path: string ensures HiddenFile(hash, db, rel, path) <==> path in files && path !in index {
        HiddenIsUnindexed(hash, db, rel, path);
      }
      OverlayIsTop(files, index);
      assert IndexCoversFiles(hash, db, rel) <==> files.Keys <= index.Keys;
    }
  }

  /** An index document that misses a file: the migration forgets the file. */
  lemma {:induction false} UncoveredFileIsForgotten(hash: PathHash, meta: FileSyncMeta, before: Database, after: Database)
    requires CollisionFree(hash)
    requires before == map[FileKey("rel", hash(meta.path)) := MetaDoc(meta), IndexKey("rel") := IndexDoc(map[])]
    requires Migrated(hash, before, after, "rel")
    ensures Lookup(hash, before, "rel", meta.path) == Some(meta)
    ensures ViewOf(hash, after, "rel") == map[]
  {
    assert LegacyIndex(hash, before, "rel") == map[];
  }

  // ---------------------------------------------------------------------------------------
  // Coalescing
  // ---------------------------------------------------------------------------------------

  ghost predicate DistinctPaths(metas: seq<FileSyncMeta>) {
    forall i, j :: 0 <= i < j < |metas| ==> metas[i].path != metas[j].path
  }

  /** `coalesced` holds the last record of every path of `metas`, once, in any order. */
  ghost predicate Coalesced(metas: seq<FileSyncMeta>, coalesced: seq<FileSyncMeta>) {
    DistinctPaths(coalesced) && forall m :: m in coalesced <==> LastFor(metas, m.path) == Some(m)
  }

  lemma {:induction false} LastForOfDistinct(metas: seq<FileSyncMeta>, path: string)
    requires DistinctPaths(metas)
    ensures LastFor(metas, path).Some? ==> LastFor(metas, path).value in metas && LastFor(metas, path).value.path == path
    ensures forall m :: m in metas && m.path == path ==> LastFor(metas, path) == Some(m)
  {
    if metas != [] {
      var n := |metas| - 1;
      LastForOfDistinct(metas[..n], path);
      forall m | m in metas && m.path == path ensures LastFor(metas, path) == Some(m) {
        assert m == metas[n] || m in metas[..n];
      }
    }
  }

  lemma {:induction false} LastForHasPath(metas: seq<FileSyncMeta>, path: string)
    ensures LastFor(metas, path).Some? ==> LastFor(metas, path).value.path == path
  {
    if metas != [] {
      LastForHasPath(metas[..|metas| - 1], path);
    }
  }

  lemma {:induction false} LastForSome(metas: seq<FileSyncMeta>, i: nat)
    requires i < |metas|
    ensures LastFor(metas, metas[i].path).Some?
  {
    if i < |metas| - 1 {
      LastForSome(metas[..|metas| - 1], i);
    }
  }

  /** Writing a coalesced batch, in whatever order, equals writing every record in turn. */
  lemma {:induction false} CoalescedBatchEqualsOneByOne(view: View, metas: seq<FileSyncMeta>, coalesced: seq<FileSyncMeta>)
    requires Coalesced(metas, coalesced)
    ensures WriteAll(view, coalesced) == WriteAll(view, metas)
  {
    forall path: string ensures Get(WriteAll(view, coalesced), path) == Get(WriteAll(view, metas), path) {
      WriteAllGets(view, coalesced, path);
      WriteAllGets(view, metas, path);
      LastForOfDistinct(coalesced, path);
      LastForHasPath(metas, path);
      if LastFor(metas, path).Some? {
        assert LastFor(metas, path).value in coalesced;
      }
    }
    SameGetsSameMap(WriteAll(view, coalesced), WriteAll(view, metas));
  }

  method ValuesInAnyOrder<K>(m: map<K, FileSyncMeta>) returns (values: seq<FileSyncMeta>)
    requires forall k, l :: k in m && l in m && m[k].path == m[l].path ==> k == l
    ensures DistinctPaths(values)
    ensures forall v :: v in values <==> exists k :: k in m && m[k] == v
  {
    values := [];
    var remaining := m.Keys;
    while remaining != {}
      invariant remaining <= m.Keys
      invariant DistinctPaths(values)
      invariant forall v :: v in values <==> exists k :: k in m && k !in remaining && m[k] == v
    {
      var k :| k in remaining;
      forall i | 0 <= i < |values| ensures values[i].path != m[k].path {
        assert values[i] in values;
      }
      values := values + [m[k]];
      remaining := remaining - {k};
    }
  }

  method CoalesceFileMetas(metas: seq<FileSyncMeta>) returns (coalesced: seq<FileSyncMeta>)
    ensures Coalesced(metas, coalesced)
  {
    var latestByPath: View := map[];
    for n := 0 to |metas|
      invariant forall p :: Get(latestByPath, p) == LastFor(metas[..n], p)
    {
      assert metas[..n + 1][..n] == metas[..n];
      ghost var before := latestByPath;
      latestByPath := latestByPath[metas[n].path := metas[n]];
      forall p ensures Get(latestByPath, p) == LastFor(metas[..n + 1], p) {
        assert Get(before, p) == LastFor(metas[..n], p);
      }
    }
    assert metas[..|metas|] == metas;
    forall p | p in latestByPath ensures latestByPath[p].path == p {
      LastForHasPath(metas, p);
      assert Get(latestByPath, p) == LastFor(metas, p);
    }
    coalesced := ValuesInAnyOrder(latestByPath);
    forall m ensures m in coalesced <==> LastFor(metas, m.path) == Some(m) {
      assert Get(latestByPath, m.path) == LastFor(metas, m.path);
      LastForHasPath(metas, m.path);
      if m in coalesced {
        var k :| k in latestByPath && latestByPath[k] == m;
        assert k == m.path;
      }
    }
  }

  // ---------------------------------------------------------------------------------------
  // Grouping records by bucket
  // ---------------------------------------------------------------------------------------

  /** Items to put into bucket documents. */
  type Patches = map<Key, map<string, FileSyncMeta>>

  function ItemsOf(patches: Patches, key: Key): map<string, FileSyncMeta> {
    if key in patches then patches[key] else map[]
  }

  function PatchFor(hash: PathHash, rel: string, patches: Patches, path: string): Option<FileSyncMeta> {
    Get(ItemsOf(patches, BucketKeyFor(rel, hash(path))), hash(path))
  }

  ghost predicate ValidPatches(hash: PathHash, rel: string, patches: Patches) {
    forall key :: key in patches ==>
      key.BucketKey? && key.rel == rel && ValidDoc(hash, key, BucketDoc(true, patches[key]))
  }

  function WithPatch(hash: PathHash, rel: string, patches: Patches, meta: FileSyncMeta): Patches {
    var key := BucketKeyFor(rel, hash(meta.path));
    patches[key := ItemsOf(patches, key)[hash(meta.path) := meta]]
  }

  lemma {:induction false} WithPatchFor(hash: PathHash, rel: string, patches: Patches, meta: FileSyncMeta, path: string)
    requires CollisionFree(hash)
    ensures PatchFor(hash, rel, WithPatch(hash, rel, patches, meta), path) ==
            if path == meta.path then Some(meta) else PatchFor(hash, rel, patches, path)
  {
  }

  method GroupByBucket(hash: PathHash, rel: string, index: View) returns (buckets: Patches)
    requires CollisionFree(hash) && forall p :: p in index ==> index[p].path == p
    ensures ValidPatches(hash, rel, buckets)
    ensures forall p :: PatchFor(hash, rel, buckets, p) == Get(index, p)
  {
    buckets := map[];
    var remaining := index.Keys;
    while remaining != {}
      invariant remaining <= index.Keys
      invariant ValidPatches(hash, rel, buckets)
      invariant forall p :: PatchFor(hash, rel, buckets, p) == Get(index - remaining, p)
    {
      var p :| p in remaining;
      var pathHash := hash(p);
      var key := BucketKeyFor(rel, pathHash);
      forall q ensures PatchFor(hash, rel, WithPatch(hash, rel, buckets, index[p]), q) == Get(index - (remaining - {p}), q) {
        WithPatchFor(hash, rel, buckets, index[p], q);
      }
      buckets := buckets[key := ItemsOf(buckets, key)[pathHash := index[p]]];
      remaining := remaining - {p};
    }
    assert index - {} == index;
  }

  method GroupPatches(hash: PathHash, rel: string, metas: seq<FileSyncMeta>) returns (bucketItems: Patches)
    requires CollisionFree(hash)
    ensures ValidPatches(hash, rel, bucketItems)
    ensures forall p :: PatchFor(hash, rel, bucketItems, p) == LastFor(metas, p)
  {
    bucketItems := map[];
    for n := 0 to |metas|
      invariant ValidPatches(hash, rel, bucketItems)
      invariant forall p :: PatchFor(hash, rel, bucketItems, p) == LastFor(metas[..n], p)
    {
      assert metas[..n + 1][..n] == metas[..n];
      var pathHash := hash(metas[n].path);
      var key := BucketKeyFor(rel, pathHash);
      forall q ensures PatchFor(hash, rel, WithPatch(hash, rel, bucketItems, metas[n]), q) == LastFor(metas[..n + 1], q) {
        WithPatchFor(hash, rel, bucketItems, metas[n], q);
      }
      bucketItems := bucketItems[key := ItemsOf(bucketItems, key)[pathHash := metas[n]]];
    }
    assert metas[..|metas|] == metas;
  }

  // ---------------------------------------------------------------------------------------
  // The store
  // ---------------------------------------------------------------------------------------

  class SyncMetadataStore {
    const hash: PathHash
    var db: Database

    constructor (hash: PathHash)
      requires CollisionFree(hash)
      ensures Valid() && this.hash == hash && db == map[]
    {
      this.hash := hash;
      db := map[];
    }

    ghost predicate Valid()
      reads this
    {
      CollisionFree(hash) && ValidDb(hash, db)
    }

    ghost function View(rel: string): View
      reads this
    {
      ViewOf(hash, db, rel)
    }

    method GetFileMeta(rel: string, path: string) returns (meta: Option<FileSyncMeta>)
      requires Valid()
      ensures meta == Get(View(rel), path)
    {
      LookupReadsView(hash, db, rel, path);
      var pathHash := hash(path);
      if ManifestKey(rel) in db {
        return Get(Items(db, BucketKeyFor(rel, pathHash)), pathHash);
      }
      var index := LegacyIndex(hash, db, rel);
      if path in index {
        return Some(index[path]);
      }
      var key := FileKey(rel, pathHash);
      meta := if key in db && db[key].MetaDoc? then Some(db[key].meta) else None;
    }

    method EnsureV2Storage(rel: string)
      requires Valid()
      modifies this
      ensures Valid() && Migrated(hash, old(db), db, rel)
      ensures ManifestKey(rel) in old(db) ==> db == old(db)
      ensures ManifestKey(rel) !in old(db) ==> ShowsAsStored(hash, old(db), db, rel)
    {
      if ManifestKey(rel) in db {
        return;
      }
      var index := LegacyIndex(hash, db, rel);
      LegacyIndexShape(hash, db, rel);
      var buckets := GroupByBucket(hash, rel, index);
      ghost var before := db;
      db := WithBuckets(db, rel, buckets);
      MigratedView(hash, before, db, rel, buckets);
      MigratedAsStored(hash, before, db, rel);
    }

    method SetFileMeta(rel: string, meta: FileSyncMeta)
      requires Valid()
      modifies this
      ensures Valid() && OthersUntouched(old(db), db, rel)
      ensures exists mid :: Migrated(hash, old(db), mid, rel) && View(rel) == ViewOf(hash, mid, rel)[meta.path := meta]
      ensures IndexCoversFiles(hash, old(db), rel) ==> View(rel) == old(View(rel))[meta.path := meta]
    {
      SetFileMetasBatch(rel, [meta]);
      assert [meta][..0] == [];
      assert forall view :: WriteAll(view, [meta]) == WriteAll(view, [meta][..0])[meta.path := meta];
    }

    /** One atomic merge of all touched buckets. */
    method SetFileMetasBatch(rel: string, metas: seq<FileSyncMeta>)
      requires Valid()
      modifies this
      ensures Valid() && OthersUntouched(old(db), db, rel)
      ensures metas == [] ==> db == old(db)
      ensures metas != [] ==>
                ManifestKey(rel) in db &&
                exists mid :: Migrated(hash, old(db), mid, rel) && View(rel) == WriteAll(ViewOf(hash, mid, rel), metas)
      ensures IndexCoversFiles(hash, old(db), rel) ==> View(rel) == WriteAll(old(View(rel)), metas)
      ensures RecordStep(hash, old(db), Writes(rel, metas), db)
      ensures forall i, h :: 0 <= i < |metas| && h == hash(metas[i].path) ==>
                BucketKey(rel, if |h| < 3 then h else h[..3]) in db
    {
      if metas == [] {
        return;
      }
      EnsureV2Storage(rel);
      ghost var mid := db;
      MigrationPreservesViewIffCovered(hash, old(db), mid, rel);
      var bucketItems := GroupPatches(hash, rel, metas);
      forall i | 0 <= i < |metas| ensures BucketKeyFor(rel, hash(metas[i].path)) in bucketItems {
        LastForSome(metas, i);
        assert PatchFor(hash, rel, bucketItems, metas[i].path).Some?;
      }
      db := WithPatches(db, bucketItems);
      PatchedView(hash, mid, rel, bucketItems, metas);
    }

    method DeleteFileMeta(rel: string, path: string)
      requires Valid()
      modifies this
      ensures Valid() && OthersUntouched(old(db), db, rel)
      ensures View(rel) == old(View(rel)) - {path}
      ensures forall p :: HiddenFile(hash, db, rel, p) <==> p != path && HiddenFile(hash, old(db), rel, p)
      ensures RecordStep(hash, old(db), Deletes(rel, path), db)
    {
      if ManifestKey(rel) in db {
        DeleteFromBucket(rel, path);
      } else {
        DeleteFromLegacy(rel, path);
      }
    }

    /** Merging `null` into the bucket's items; a bucket that did not exist comes to exist without a version. */
    method DeleteFromBucket(rel: string, path: string)
      requires Valid() && ManifestKey(rel) in db
      modifies this
      ensures Valid() && OthersUntouched(old(db), db, rel) && ManifestKey(rel) in db
      ensures View(rel) == old(View(rel)) - {path}
    {
      var pathHash := hash(path);
      var bucketKey := BucketKeyFor(rel, pathHash);
      BucketDeleted(hash, db, rel, path);
      db := db[bucketKey := UnmergedBucket(db, bucketKey, pathHash)];
    }

    method DeleteFromLegacy(rel: string, path: string)
      requires Valid() && ManifestKey(rel) !in db
      modifies this
      ensures db == LegacyWithout(hash, old(db), rel, path)
      ensures Valid() && OthersUntouched(old(db), db, rel)
      ensures View(rel) == old(View(rel)) - {path}
      ensures forall p :: HiddenFile(hash, db, rel, p) <==> p != path && HiddenFile(hash, old(db), rel, p)
    {
      LegacyDeleted(hash, db, rel, path);
      var index := LegacyIndex(hash, db, rel);
      if path in index {
        db := db[IndexKey(rel) := IndexDoc(index - {path})];
      }
      var key := FileKey(rel, hash(path));
      db := if key in db then db - {key} else db;
    }

    /** The order of the records is that of hash maps and directories: arbitrary. */
    method ListFileMetas(rel: string) returns (metas: seq<FileSyncMeta>)
      requires Valid()
      ensures DistinctPaths(metas)
      ensures forall m :: m in metas <==> Get(Listing(hash, db, rel), m.path) == Some(m)
    {
      var listing := Listing(hash, db, rel);
      forall p | p in listing ensures listing[p].path == p {
        FilesByPathIsLookup(hash, db, rel, p);
        BucketsByPathIsLookup(hash, db, rel, p);
        LegacyIndexShape(hash, db, rel);
      }
      metas := ValuesInAnyOrder(listing);
      forall m ensures m in metas <==> Get(listing, m.path) == Some(m) {
        if k :| k in listing && listing[k] == m {
          assert k == m.path;
        }
      }
    }

    /** A document of another kind under the key reads as no checkpoint. */
    method GetCheckpoint(rel: string) returns (rootHash: Option<string>)
      ensures forall h :: rootHash == Some(h) <==> CheckpointKey(rel) in db && db[CheckpointKey(rel)] == CheckpointDoc(h)
    {
      rootHash := None;
      if CheckpointKey(rel) in db {
        match db[CheckpointKey(rel)] {
          case CheckpointDoc(hash) => rootHash := Some(hash);
          case _ =>
        }
      }
    }

    method SetCheckpoint(rel: string, rootHash: string)
      requires Valid()
      modifies this
      ensures Valid() && db == Applied(old(db), SetsCheckpoint(rel, rootHash)) && forall r :: View(r) == old(View(r))
      ensures RecordStep(hash, old(db), Elsewhere(rel), db)
    {
      db := db[CheckpointKey(rel) := CheckpointDoc(rootHash)];
      SameFileDocsSameViews(hash, old(db), db);
    }

    method ClearCheckpoint(rel: string)
      requires Valid()
      modifies this
      ensures Valid() && db == Applied(old(db), ClearsCheckpoint(rel)) && forall r :: View(r) == old(View(r))
      ensures RecordStep(hash, old(db), Elsewhere(rel), db)
    {
      DeleteIfPresent(CheckpointKey(rel));
      SameFileDocsSameViews(hash, old(db), db);
    }

    /** Clears the checkpoint and overwrites whatever marker was pending. */
    method BeginPathMigration(rel: string, migration: SyncPathMigration)
      requires Valid()
      modifies this
      ensures Valid() && forall r :: View(r) == old(View(r))
      ensures db == Applied(old(db), BeginsMigration(rel, migration)) && MigrationOf(db, rel) == Some(migration)
      ensures RecordStep(hash, old(db), Elsewhere(rel), db)
    {
      ClearCheckpoint(rel);
      label Cleared:
      db := db[MigrationKey(rel) := MigrationDoc(migration)];
      SameFileDocsSameViews(hash, old@Cleared(db), db);
    }

    method ClearPathMigration(rel: string)
      requires Valid()
      modifies this
      ensures Valid() && db == Applied(old(db), ClearsMigration(rel)) && MigrationOf(db, rel) == None
      ensures RecordStep(hash, old(db), Elsewhere(rel), db)
      ensures forall r :: View(r) == old(View(r))
    {
      DeleteIfPresent(MigrationKey(rel));
      SameFileDocsSameViews(hash, old(db), db);
    }

    /** Checkpoint, marker, and every document of all three layouts. */
    method ClearRelationshipState(rel: string)
      requires Valid()
      modifies this
      ensures Valid() && View(rel) == map[] && Listing(hash, db, rel) == map[]
      ensures db == Applied(old(db), ClearsState(rel)) && RecordStep(hash, old(db), Clears(rel), db)
    {
      ClearedView(hash, db, rel);
      DeleteAllDocuments(rel);
    }

    method DeleteAllDocuments(rel: string)
      modifies this
      ensures db == WithoutRelationship(old(db), rel)
    {
      DeleteIfPresent(CheckpointKey(rel));
      DeleteIfPresent(MigrationKey(rel));
      DeleteDirectory(set key | key in db && key.FileKey? && key.rel == rel);
      DeleteIfPresent(IndexKey(rel));
      DeleteDirectory(set key | key in db && (key.BucketKey? || key.ManifestKey?) && key.rel == rel);
      SameDatabase(db, WithoutRelationship(old(db), rel));
    }

    method DeleteIfPresent(key: Key)
      modifies this
      ensures db == old(db) - {key}
    {
      if key in db {
        db := db - {key};
      }
    }

    method DeleteDirectory(keys: set<Key>)
      modifies this
      ensures db == old(db) - keys
    {
      var remaining := keys;
      while remaining != {}
        invariant remaining <= keys
        invariant db == old(db) - (keys - remaining)
      {
        var key :| key in remaining;
        db := db - {key};
        remaining := remaining - {key};
      }
    }
  }

  // ---------------------------------------------------------------------------------------
  // What a record reads back as
  // ---------------------------------------------------------------------------------------

  /** What happens to the records: a batch, a deletion, the end of the relationship, or something beside them. */
  datatype RecordOp =
    | Writes(rel: string, metas: seq<FileSyncMeta>)
    | Deletes(rel: string, path: string)
    | Clears(rel: string)
    | Elsewhere(rel: string)

  /** What the method of that name promises about the records. */
  ghost predicate RecordStep(hash: PathHash, before: Database, op: RecordOp, after: Database) {
    ValidDb(hash, after) &&
    match op
    case Writes(rel, metas) =>
      OthersUntouched(before, after, rel) &&
      (if metas == [] then after == before
       else ManifestKey(rel) in after &&
            exists mid :: Migrated(hash, before, mid, rel) && ViewOf(hash, after, rel) == WriteAll(ViewOf(hash, mid, rel), metas))
    case Deletes(rel, path) =>
      OthersUntouched(before, after, rel) && ViewOf(hash, after, rel) == ViewOf(hash, before, rel) - {path} &&
      forall p :: HiddenFile(hash, after, rel, p) <==> p != path && HiddenFile(hash, before, rel, p)
    case Clears(rel) =>
      forall key: Key :: Get(after, key) == if key.rel == rel then None else Get(before, key)
    case Elsewhere(rel) =>
      forall key: Key :: !key.CheckpointKey? && !key.MigrationKey? ==> Get(after, key) == Get(before, key)
  }

  ghost predicate RecordRun(hash: PathHash, dbs: seq<Database>, ops: seq<RecordOp>) {
    |dbs| == |ops| + 1 && ValidDb(hash, dbs[0]) &&
    forall k :: 0 <= k < |ops| ==> RecordStep(hash, dbs[k], ops[k], dbs[k + 1])
  }

  /** The operation says something about the record of this path. */
  predicate TouchesRecord(op: RecordOp, rel: string, path: string) {
    op.rel == rel &&
    match op
    case Writes(_, metas) => LastFor(metas, path).Some?
    case Deletes(_, p) => p == path
    case Clears(_) => true
    case Elsewhere(_) => false
  }

  /** The i-th operation writes the record, and none after it touches the path. */
  ghost predicate LastWrites(ops: seq<RecordOp>, i: nat, rel: string, path: string, meta: FileSyncMeta) {
    i < |ops| && ops[i].Writes? && ops[i].rel == rel && LastFor(ops[i].metas, path) == Some(meta) &&
    forall k :: i < k < |ops| ==> !TouchesRecord(ops[k], rel, path)
  }

  /** No operation writes a record of the relationship, so nothing has migrated. */
  ghost predicate NothingWritten(ops: seq<RecordOp>, rel: string) {
    forall k :: 0 <= k < |ops| && ops[k].Writes? && ops[k].rel == rel ==> ops[k].metas == []
  }

  ghost predicate RecordUntouched(ops: seq<RecordOp>, rel: string, path: string) {
    forall k :: 0 <= k < |ops| ==> !TouchesRecord(ops[k], rel, path)
  }

  /** Record and hiding of one path after an operation, from what they were before it. */
  ghost predicate Follows(op: RecordOp, rel: string, path: string,
                          before: Option<FileSyncMeta>, hiddenBefore: bool, after: Option<FileSyncMeta>, hiddenAfter: bool) {
    var migrates := op.Writes? && op.rel == rel && op.metas != [];
    after == (if op.Writes? && op.rel == rel && LastFor(op.metas, path).Some? then LastFor(op.metas, path)
              else if TouchesRecord(op, rel, path) || (migrates && hiddenBefore) then None
              else before) &&
    (hiddenAfter <==> hiddenBefore && !TouchesRecord(op, rel, path) && !migrates)
  }

  /** Record and hiding of one path after operations, from what they were at the start. */
  ghost predicate ReadsBack(ops: seq<RecordOp>, rel: string, path: string,
                            first: Option<FileSyncMeta>, hiddenFirst: bool, now: Option<FileSyncMeta>, hiddenNow: bool) {
    (forall meta :: now == Some(meta) <==>
      (exists i :: LastWrites(ops, i, rel, path, meta)) ||
      (first == Some(meta) && RecordUntouched(ops, rel, path) && (hiddenFirst ==> NothingWritten(ops, rel)))) &&
    (hiddenNow <==> hiddenFirst && RecordUntouched(ops, rel, path) && NothingWritten(ops, rel))
  }

  lemma {:induction false} OneMoreReadsBack(
      ops: seq<RecordOp>, op: RecordOp, rel: string, path: string, first: Option<FileSyncMeta>, hiddenFirst: bool,
      before: Option<FileSyncMeta>, hiddenBefore: bool, after: Option<FileSyncMeta>, hiddenAfter: bool)
    requires ReadsBack(ops, rel, path, first, hiddenFirst, before, hiddenBefore)
    requires Follows(op, rel, path, before, hiddenBefore, after, hiddenAfter)
    ensures ReadsBack(ops + [op], rel, path, first, hiddenFirst, after, hiddenAfter)
  {
    assert (ops + [op])[..|ops|] == ops;
    OneMoreQuietOp(ops + [op], rel, path);
    forall meta
      ensures after == Some(meta) <==>
        (exists i :: LastWrites(ops + [op], i, rel, path, meta)) ||
        (first == Some(meta) && RecordUntouched(ops + [op], rel, path) && (hiddenFirst ==> NothingWritten(ops + [op], rel)))
    {
      OneMoreRecordOp(ops + [op], rel, path, meta);
    }
  }

  lemma {:induction false} RunFollows(hash: PathHash, dbs: seq<Database>, ops: seq<RecordOp>, k: nat, rel: string, path: string)
    requires CollisionFree(hash) && RecordRun(hash, dbs, ops) && k < |ops|
    ensures Follows(ops[k], rel, path, Lookup(hash, dbs[k], rel, path), HiddenFile(hash, dbs[k], rel, path),
                    Lookup(hash, dbs[k + 1], rel, path), HiddenFile(hash, dbs[k + 1], rel, path))
  {
    RunStaysValid(hash, dbs, ops, k);
    StepReadsBack(hash, dbs[k], ops[k], dbs[k + 1], rel, path);
  }

  /** Records and hiding of one path over time. */
  lemma {:induction false} ReadsBackAt(ops: seq<RecordOp>, rel: string, path: string,
                                       records: seq<Option<FileSyncMeta>>, hidden: seq<bool>, n: nat)
    requires |records| == |hidden| == |ops| + 1 && n <= |ops|
    requires forall k :: 0 <= k < |ops| ==> Follows(ops[k], rel, path, records[k], hidden[k], records[k + 1], hidden[k + 1])
    ensures ReadsBack(ops[..n], rel, path, records[0], hidden[0], records[n], hidden[n])
  {
    if n == 0 {
      assert ops[..0] == [];
    } else {
      ReadsBackAt(ops, rel, path, records, hidden, n - 1);
      assert ops[..n] == ops[..n - 1] + [ops[n - 1]];
      OneMoreReadsBack(ops[..n - 1], ops[n - 1], rel, path, records[0], hidden[0], records[n - 1], hidden[n - 1], records[n], hidden[n]);
    }
  }

  lemma {:induction false} RunStaysValid(hash: PathHash, dbs: seq<Database>, ops: seq<RecordOp>, k: nat)
    requires RecordRun(hash, dbs, ops) && k <= |ops|
    ensures ValidDb(hash, dbs[k])
  {
    if k > 0 {
      assert RecordStep(hash, dbs[k - 1], ops[k - 1], dbs[k]);
    }
  }

  /**
   From any valid database, after any run over any relationships, a path looks up as the record
   last written for it, if nothing has deleted it since and the relationship has not ended; or
   as the record it had at the start, if nothing touched it. The one exception is a file hidden
   at the start: the first record written for the relationship makes the store forget it.
   */
  lemma {:induction false} RecordReadsBack(
      hash: PathHash, dbs: seq<Database>, ops: seq<RecordOp>, rel: string, path: string, meta: FileSyncMeta)
    requires CollisionFree(hash) && RecordRun(hash, dbs, ops)
    ensures Lookup(hash, dbs[|ops|], rel, path) == Some(meta) <==>
            (exists i :: LastWrites(ops, i, rel, path, meta)) ||
            (Lookup(hash, dbs[0], rel, path) == Some(meta) && RecordUntouched(ops, rel, path) &&
             (HiddenFile(hash, dbs[0], rel, path) ==> NothingWritten(ops, rel)))
  {
    ghost var records := seq(|dbs|, k requires 0 <= k < |dbs| => Lookup(hash, dbs[k], rel, path));
    ghost var hidden := seq(|dbs|, k requires 0 <= k < |dbs| => HiddenFile(hash, dbs[k], rel, path));
    forall k | 0 <= k < |ops| ensures Follows(ops[k], rel, path, records[k], hidden[k], records[k + 1], hidden[k + 1]) {
      RunFollows(hash, dbs, ops, k, rel, path);
    }
    ReadsBackAt(ops, rel, path, records, hidden, |ops|);
    assert ops[..|ops|] == ops;
  }

  lemma {:induction false} OneMoreQuietOp(ops: seq<RecordOp>, rel: string, path: string)
    requires ops != []
    ensures var n := |ops| - 1;
            RecordUntouched(ops, rel, path) <==> RecordUntouched(ops[..n], rel, path) && !TouchesRecord(ops[n], rel, path)
    ensures var n := |ops| - 1;
            NothingWritten(ops, rel) <==>
            NothingWritten(ops[..n], rel) && (ops[n].Writes? && ops[n].rel == rel ==> ops[n].metas == [])
  {
    assert ops == ops[..|ops| - 1] + [ops[|ops| - 1]];
  }

  lemma {:induction false} OneMoreRecordOp(ops: seq<RecordOp>, rel: string, path: string, meta: FileSyncMeta)
    requires ops != []
    ensures var n := |ops| - 1;
            (exists i :: LastWrites(ops, i, rel, path, meta)) <==>
            (ops[n].Writes? && ops[n].rel == rel && LastFor(ops[n].metas, path) == Some(meta)) ||
            (!TouchesRecord(ops[n], rel, path) && exists i :: LastWrites(ops[..n], i, rel, path, meta))
  {
    var n := |ops| - 1;
    if ops[n].Writes? && ops[n].rel == rel && LastFor(ops[n].metas, path) == Some(meta) {
      assert LastWrites(ops, n, rel, path, meta);
    }
    if i: nat :| LastWrites(ops, i, rel, path, meta) {
      assert i < n ==> LastWrites(ops[..n], i, rel, path, meta) && !TouchesRecord(ops[n], rel, path);
    }
    if i: nat :| LastWrites(ops[..n], i, rel, path, meta) {
      assert !TouchesRecord(ops[n], rel, path) ==> LastWrites(ops, i, rel, path, meta);
    }
  }

  /** One operation, on one path. */
  lemma {:induction false} StepReadsBack(
      hash: PathHash, before: Database, op: RecordOp, after: Database, rel: string, path: string)
    requires CollisionFree(hash) && ValidDb(hash, before) && RecordStep(hash, before, op, after)
    ensures Follows(op, rel, path, Lookup(hash, before, rel, path), HiddenFile(hash, before, rel, path),
                    Lookup(hash, after, rel, path), HiddenFile(hash, after, rel, path))
  {
    if op.rel != rel || op.Elsewhere? {
      StepElsewhere(hash, before, op, after, rel);
      SameLookup(hash, before, after, rel, path);
    } else if op.Clears? {
      ClearedReadsBack(hash, after, rel, path);
    } else if op.Deletes? {
      DeletedReadsBack(hash, before, op.path, after, rel, path);
    } else if op.metas != [] {
      WrittenReadsBack(hash, before, op.metas, after, rel, path);
    }
  }

  lemma {:induction false} DeletedReadsBack(hash: PathHash, before: Database, deleted: string, after: Database, rel: string, path: string)
    requires CollisionFree(hash) && ValidDb(hash, before) && ValidDb(hash, after)
    requires ViewOf(hash, after, rel) == ViewOf(hash, before, rel) - {deleted}
    ensures Lookup(hash, after, rel, path) == if path == deleted then None else Lookup(hash, before, rel, path)
  {
    LookupReadsView(hash, before, rel, path);
    LookupReadsView(hash, after, rel, path);
  }

  lemma {:induction false} StepElsewhere(hash: PathHash, before: Database, op: RecordOp, after: Database, rel: string)
    requires RecordStep(hash, before, op, after) && (op.rel != rel || op.Elsewhere?)
    ensures SameRecords(before, after, rel)
  {
  }

  lemma {:induction false} ClearedReadsBack(hash: PathHash, after: Database, rel: string, path: string)
    requires CollisionFree(hash) && ValidDb(hash, after) && forall key: Key :: key.rel == rel ==> Get(after, key) == None
    ensures Lookup(hash, after, rel, path) == None && !HiddenFile(hash, after, rel, path)
  {
    assert Get(after, ManifestKey(rel)) == Get(after, IndexKey(rel)) == Get(after, FileKey(rel, hash(path))) == None;
    FilesByPathIsLookup(hash, after, rel, path);
  }

  lemma {:induction false} WrittenReadsBack(
      hash: PathHash, before: Database, metas: seq<FileSyncMeta>, after: Database, rel: string, path: string)
    requires CollisionFree(hash) && ValidDb(hash, before) && ValidDb(hash, after) && metas != []
    requires exists mid :: Migrated(hash, before, mid, rel) && ViewOf(hash, after, rel) == WriteAll(ViewOf(hash, mid, rel), metas)
    ensures Lookup(hash, after, rel, path) ==
            if LastFor(metas, path).Some? then LastFor(metas, path)
            else if HiddenFile(hash, before, rel, path) then None
            else Lookup(hash, before, rel, path)
  {
    var mid :| Migrated(hash, before, mid, rel) && ViewOf(hash, after, rel) == WriteAll(ViewOf(hash, mid, rel), metas);
    MigrationForgetsHidden(hash, before, mid, rel, path);
    WriteAllGets(ViewOf(hash, mid, rel), metas, path);
    LookupReadsView(hash, before, rel, path);
    LookupReadsView(hash, after, rel, path);
  }

  function CheckpointOf(db: Database, rel: string): Option<string> {
    if CheckpointKey(rel) in db && db[CheckpointKey(rel)].CheckpointDoc? then Some(db[CheckpointKey(rel)].rootHash) else None
  }

  /** The database once a root change has been queued. */
  function WithMigration(db: Database, rel: string, migration: SyncPathMigration): Database {
    (db - {CheckpointKey(rel)})[MigrationKey(rel) := MigrationDoc(migration)]
  }

  function MigrationOf(db: Database, rel: string): Option<SyncPathMigration> {
    if MigrationKey(rel) in db && db[MigrationKey(rel)].MigrationDoc? then Some(db[MigrationKey(rel)].migration) else None
  }

  // ---------------------------------------------------------------------------------------
  // What the checkpoint reads back as
  // ---------------------------------------------------------------------------------------

  /** What happens to checkpoints and markers; records are written beside them. */
  datatype StateOp =
    | SetsCheckpoint(rel: string, rootHash: string)
    | ClearsCheckpoint(rel: string)
    | BeginsMigration(rel: string, migration: SyncPathMigration)
    | ClearsMigration(rel: string)
    | ClearsState(rel: string)
    | WritesRecord(rel: string, key: Key, doc: Doc)

  /** The database as the method of that name leaves it. */
  function Applied(db: Database, op: StateOp): Database {
    match op
    case SetsCheckpoint(rel, rootHash) => db[CheckpointKey(rel) := CheckpointDoc(rootHash)]
    case ClearsCheckpoint(rel) => db - {CheckpointKey(rel)}
    case BeginsMigration(rel, migration) => WithMigration(db, rel, migration)
    case ClearsMigration(rel) => db - {MigrationKey(rel)}
    case ClearsState(rel) => WithoutRelationship(db, rel)
    case WritesRecord(rel, key, doc) => if key.CheckpointKey? || key.MigrationKey? then db else db[key := doc]
  }

  function AppliedAll(db: Database, ops: seq<StateOp>): Database {
    if ops == [] then db else Applied(AppliedAll(db, ops[..|ops| - 1]), ops[|ops| - 1])
  }

  /** The operation sets or forgets the checkpoint of this relationship. */
  predicate Concerns(op: StateOp, rel: string) {
    op.rel == rel && !op.ClearsMigration? && !op.WritesRecord?
  }

  /** The i-th operation sets the checkpoint, and none after it concerns it. */
  ghost predicate LastSet(ops: seq<StateOp>, i: nat, rel: string, rootHash: string) {
    i < |ops| && ops[i] == SetsCheckpoint(rel, rootHash) && forall k :: i < k < |ops| ==> !Concerns(ops[k], rel)
  }

  /**
   After any sequence of operations the checkpoint reads as the hash last set, if nothing has
   cleared it since - neither a clearing, nor a root change, nor the end of the relationship's
   state; the markers and the other relationships do not matter.
   */
  lemma {:induction false} CheckpointReadsBack(db: Database, ops: seq<StateOp>, rel: string, rootHash: string)
    ensures CheckpointOf(AppliedAll(db, ops), rel) == Some(rootHash) <==>
            (exists i :: LastSet(ops, i, rel, rootHash)) ||
            (CheckpointOf(db, rel) == Some(rootHash) && forall k :: 0 <= k < |ops| ==> !Concerns(ops[k], rel))
  {
    if ops != [] {
      var n := |ops| - 1;
      CheckpointReadsBack(db, ops[..n], rel, rootHash);
      OneMoreOp(ops, rel, rootHash);
    }
  }

  lemma {:induction false} OneMoreOp(ops: seq<StateOp>, rel: string, rootHash: string)
    requires ops != []
    ensures var n := |ops| - 1;
            (exists i :: LastSet(ops, i, rel, rootHash)) <==>
            ops[n] == SetsCheckpoint(rel, rootHash) || (!Concerns(ops[n], rel) && exists i :: LastSet(ops[..n], i, rel, rootHash))
  {
    var n := |ops| - 1;
    if ops[n] == SetsCheckpoint(rel, rootHash) {
      assert LastSet(ops, n, rel, rootHash);
    }
    if i: nat :| LastSet(ops, i, rel, rootHash) {
      assert i < n ==> LastSet(ops[..n], i, rel, rootHash) && !Concerns(ops[n], rel);
    }
    if i: nat :| LastSet(ops[..n], i, rel, rootHash) {
      assert !Concerns(ops[n], rel) ==> LastSet(ops, i, rel, rootHash);
    }
  }

  // ---------------------------------------------------------------------------------------
  // Lemmas behind the store's methods
  // ---------------------------------------------------------------------------------------

  lemma {:induction false} LegacyIndexShape(hash: PathHash, db: Database, rel: string)
    requires CollisionFree(hash) && ValidDb(hash, db)
    ensures forall p :: p in LegacyIndex(hash, db, rel) ==> LegacyIndex(hash, db, rel)[p].path == p
  {
    forall p | p in LegacyIndex(hash, db, rel) ensures LegacyIndex(hash, db, rel)[p].path == p {
      FilesByPathIsLookup(hash, db, rel, p);
      if IndexKey(rel) in db {
        assert ValidDoc(hash, IndexKey(rel), db[IndexKey(rel)]);
      }
    }
  }

  /** A merge of depth two: the items of the patch replace those of the document, one by one. */
  function MergedBucket(db: Database, key: Key, items: map<string, FileSyncMeta>): Doc {
    BucketDoc(true, Items(db, key) + items)
  }

  function WithBuckets(before: Database, rel: string, buckets: Patches): Database {
    before + (map key | key in buckets :: BucketDoc(true, buckets[key])) + map[ManifestKey(rel) := ManifestDoc]
  }

  lemma {:induction false} WithBucketsValid(hash: PathHash, before: Database, rel: string, buckets: Patches)
    requires ValidDb(hash, before) && ValidPatches(hash, rel, buckets)
    ensures ValidDb(hash, WithBuckets(before, rel, buckets))
    ensures OthersUntouched(before, WithBuckets(before, rel, buckets), rel)
  {
    var after := WithBuckets(before, rel, buckets);
    forall key | key in after ensures ValidDoc(hash, key, after[key]) {
      if key in buckets && key != ManifestKey(rel) {
        assert after[key] == BucketDoc(true, buckets[key]);
      } else if key in before && key != ManifestKey(rel) {
        assert after[key] == before[key];
      }
    }
  }

  lemma {:induction false} WithBucketsLookup(hash: PathHash, before: Database, rel: string, buckets: Patches, path: string)
    requires ValidDb(hash, before) && ManifestKey(rel) !in before
    ensures Lookup(hash, WithBuckets(before, rel, buckets), rel, path) == PatchFor(hash, rel, buckets, path)
  {
    var key := BucketKeyFor(rel, hash(path));
    assert key !in before;
    var after := WithBuckets(before, rel, buckets);
    assert key in after <==> key in buckets;
  }

  lemma {:induction false} MigratedView(hash: PathHash, before: Database, after: Database, rel: string, buckets: Patches)
    requires CollisionFree(hash) && ValidDb(hash, before) && ManifestKey(rel) !in before
    requires ValidPatches(hash, rel, buckets)
    requires forall p :: PatchFor(hash, rel, buckets, p) == Get(LegacyIndex(hash, before, rel), p)
    requires after == WithBuckets(before, rel, buckets)
    ensures ValidDb(hash, after) && Migrated(hash, before, after, rel)
  {
    WithBucketsValid(hash, before, rel, buckets);
    var index := LegacyIndex(hash, before, rel);
    forall p: string ensures Lookup(hash, after, rel, p) == Get(index, p) {
      WithBucketsLookup(hash, before, rel, buckets, p);
      assert PatchFor(hash, rel, buckets, p) == Get(index, p);
    }
    SameLookupsSameView(hash, after, rel, index);
  }

  /** `merge_json_files_batch`: all documents of the batch at once. */
  function WithPatches(db: Database, patches: Patches): Database {
    db + (map key | key in patches :: MergedBucket(db, key, patches[key]))
  }

  lemma {:induction false} WithPatchesValid(hash: PathHash, mid: Database, rel: string, patches: Patches)
    requires ValidDb(hash, mid) && ManifestKey(rel) in mid && ValidPatches(hash, rel, patches)
    ensures ValidDb(hash, WithPatches(mid, patches)) && OthersUntouched(mid, WithPatches(mid, patches), rel)
  {
    var after := WithPatches(mid, patches);
    forall key | key in after ensures ValidDoc(hash, key, after[key]) {
      if key in mid {
        assert ValidDoc(hash, key, mid[key]);
      }
      if key in patches {
        assert ValidDoc(hash, key, BucketDoc(true, patches[key]));
        assert after[key] == MergedBucket(mid, key, patches[key]);
      }
    }
  }

  lemma {:induction false} WithPatchesLookup(hash: PathHash, mid: Database, rel: string, patches: Patches, path: string)
    requires ManifestKey(rel) in mid && ValidPatches(hash, rel, patches)
    ensures var patched := PatchFor(hash, rel, patches, path);
            Lookup(hash, WithPatches(mid, patches), rel, path) ==
            if patched.Some? then patched else Lookup(hash, mid, rel, path)
  {
    var key := BucketKeyFor(rel, hash(path));
    assert ManifestKey(rel) !in patches;
    assert Items(WithPatches(mid, patches), key) == Items(mid, key) + ItemsOf(patches, key);
  }

  lemma {:induction false} PatchedView(hash: PathHash, mid: Database, rel: string, patches: Patches, metas: seq<FileSyncMeta>)
    requires CollisionFree(hash) && ValidDb(hash, mid) && ManifestKey(rel) in mid && ValidPatches(hash, rel, patches)
    requires forall p :: PatchFor(hash, rel, patches, p) == LastFor(metas, p)
    ensures ValidDb(hash, WithPatches(mid, patches)) && OthersUntouched(mid, WithPatches(mid, patches), rel)
    ensures ViewOf(hash, WithPatches(mid, patches), rel) == WriteAll(ViewOf(hash, mid, rel), metas)
  {
    WithPatchesValid(hash, mid, rel, patches);
    var expected := WriteAll(ViewOf(hash, mid, rel), metas);
    forall p: string ensures Lookup(hash, WithPatches(mid, patches), rel, p) == Get(expected, p) {
      LookupReadsView(hash, mid, rel, p);
      WriteAllGets(ViewOf(hash, mid, rel), metas, p);
      WithPatchesLookup(hash, mid, rel, patches, p);
      assert PatchFor(hash, rel, patches, p) == LastFor(metas, p);
    }
    SameLookupsSameView(hash, WithPatches(mid, patches), rel, expected);
  }

  lemma {:induction false} DeletedView(hash: PathHash, before: Database, after: Database, rel: string, path: string)
    requires CollisionFree(hash) && ValidDb(hash, before) && ValidDb(hash, after)
    requires forall p :: Lookup(hash, after, rel, p) == if p == path then None else Lookup(hash, before, rel, p)
    ensures ViewOf(hash, after, rel) == ViewOf(hash, before, rel) - {path}
  {
    forall p: string ensures Lookup(hash, after, rel, p) == Get(ViewOf(hash, before, rel) - {path}, p) {
      LookupReadsView(hash, before, rel, p);
    }
    SameLookupsSameView(hash, after, rel, ViewOf(hash, before, rel) - {path});
  }

  function UnmergedBucket(db: Database, key: Key, pathHash: string): Doc {
    BucketDoc(key in db && db[key].BucketDoc? && db[key].versioned, Items(db, key) - {pathHash})
  }

  lemma {:induction false} BucketDeleted(hash: PathHash, db: Database, rel: string, path: string)
    requires CollisionFree(hash) && ValidDb(hash, db) && ManifestKey(rel) in db
    ensures var key := BucketKeyFor(rel, hash(path));
            var after := db[key := UnmergedBucket(db, key, hash(path))];
            ValidDb(hash, after) && OthersUntouched(db, after, rel) &&
            ViewOf(hash, after, rel) == ViewOf(hash, db, rel) - {path}
  {
    var touched := BucketKeyFor(rel, hash(path));
    var after := db[touched := UnmergedBucket(db, touched, hash(path))];
    forall key | key in after ensures ValidDoc(hash, key, after[key]) {
      if key in db {
        assert ValidDoc(hash, key, db[key]);
      }
    }
    assert Items(after, touched) == Items(db, touched) - {hash(path)};
    forall p ensures Lookup(hash, after, rel, p) == if p == path then None else Lookup(hash, db, rel, p) {
      var key := BucketKeyFor(rel, hash(p));
      assert key != touched ==> Items(after, key) == Items(db, key);
    }
    DeletedView(hash, db, after, rel, path);
  }

  /** The database after a delete in the older layouts, which indexes the rest whenever it found the path. */
  function LegacyWithout(hash: PathHash, db: Database, rel: string, path: string): Database {
    var index := LegacyIndex(hash, db, rel);
    var indexed := if path in index then db[IndexKey(rel) := IndexDoc(index - {path})] else db;
    var key := FileKey(rel, hash(path));
    if key in indexed then indexed - {key} else indexed
  }

  lemma {:induction false} LegacyWithoutValid(hash: PathHash, db: Database, rel: string, path: string)
    requires CollisionFree(hash) && ValidDb(hash, db) && ManifestKey(rel) !in db
    ensures ValidDb(hash, LegacyWithout(hash, db, rel, path))
    ensures OthersUntouched(db, LegacyWithout(hash, db, rel, path), rel)
  {
    LegacyIndexShape(hash, db, rel);
    var after := LegacyWithout(hash, db, rel, path);
    forall key | key in after ensures ValidDoc(hash, key, after[key]) {
      if key in db {
        assert ValidDoc(hash, key, db[key]);
      }
    }
  }

  lemma {:induction false} LegacyWithoutFiles(hash: PathHash, db: Database, rel: string, path: string, p: string)
    requires CollisionFree(hash) && ValidDb(hash, db) && ManifestKey(rel) !in db
    ensures var after := LegacyWithout(hash, db, rel, path);
            Get(FilesByPath(hash, after, rel), p) == if p == path then None else Get(FilesByPath(hash, db, rel), p)
  {
    LegacyWithoutValid(hash, db, rel, path);
    var after := LegacyWithout(hash, db, rel, path);
    FilesByPathIsLookup(hash, db, rel, p);
    FilesByPathIsLookup(hash, after, rel, p);
    var key := FileKey(rel, hash(p));
    assert p != path ==> key != FileKey(rel, hash(path));
    assert Get(after, key) == if p == path then None else Get(db, key);
  }

  lemma {:induction false} LegacyWithoutIndex(hash: PathHash, db: Database, rel: string, path: string, p: string)
    requires CollisionFree(hash) && ValidDb(hash, db) && ManifestKey(rel) !in db
    ensures var after := LegacyWithout(hash, db, rel, path);
            Get(LegacyIndex(hash, after, rel), p) == if p == path then None else Get(LegacyIndex(hash, db, rel), p)
  {
    var after := LegacyWithout(hash, db, rel, path);
    var index := LegacyIndex(hash, db, rel);
    if path in index {
      assert after[IndexKey(rel)] == IndexDoc(index - {path});
    } else if IndexKey(rel) in db {
      assert ValidDoc(hash, IndexKey(rel), db[IndexKey(rel)]);
      assert after[IndexKey(rel)] == db[IndexKey(rel)];
    } else {
      assert IndexKey(rel) !in after;
      LegacyWithoutFiles(hash, db, rel, path, p);
    }
  }

  lemma {:induction false} LegacyWithoutHides(hash: PathHash, db: Database, rel: string, path: string, p: string)
    requires CollisionFree(hash) && ValidDb(hash, db) && ManifestKey(rel) !in db
    ensures HiddenFile(hash, LegacyWithout(hash, db, rel, path), rel, p) <==> p != path && HiddenFile(hash, db, rel, p)
  {
    LegacyWithoutValid(hash, db, rel, path);
    LegacyWithoutIndex(hash, db, rel, path, p);
    LegacyWithoutFiles(hash, db, rel, path, p);
    HiddenIsUnindexed(hash, db, rel, p);
    HiddenIsUnindexed(hash, LegacyWithout(hash, db, rel, path), rel, p);
  }

  lemma {:induction false} LegacyDeleted(hash: PathHash, db: Database, rel: string, path: string)
    requires CollisionFree(hash) && ValidDb(hash, db) && ManifestKey(rel) !in db
    ensures var after := LegacyWithout(hash, db, rel, path);
            ValidDb(hash, after) && OthersUntouched(db, after, rel) &&
            ViewOf(hash, after, rel) == ViewOf(hash, db, rel) - {path} &&
            forall p :: HiddenFile(hash, after, rel, p) <==> p != path && HiddenFile(hash, db, rel, p)
  {
    var after := LegacyWithout(hash, db, rel, path);
    LegacyWithoutValid(hash, db, rel, path);
    forall p ensures Lookup(hash, after, rel, p) == if p == path then None else Lookup(hash, db, rel, p) {
      LegacyWithoutIndex(hash, db, rel, path, p);
      LegacyWithoutFiles(hash, db, rel, path, p);
      LegacyLookup(hash, db, rel, p);
      LegacyLookup(hash, after, rel, p);
    }
    DeletedView(hash, db, after, rel, path);
    forall p ensures HiddenFile(hash, after, rel, p) <==> p != path && HiddenFile(hash, db, rel, p) {
      LegacyWithoutHides(hash, db, rel, path, p);
    }
  }

  /** In the older layouts a lookup is the index first and the per-file document second. */
  lemma {:induction false} LegacyLookup(hash: PathHash, db: Database, rel: string, path: string)
    requires CollisionFree(hash) && ValidDb(hash, db) && ManifestKey(rel) !in db
    ensures Lookup(hash, db, rel, path) ==
            if path in LegacyIndex(hash, db, rel) then Get(LegacyIndex(hash, db, rel), path)
            else Get(FilesByPath(hash, db, rel), path)
  {
    FilesByPathIsLookup(hash, db, rel, path);
    if FileKey(rel, hash(path)) in db {
      assert ValidDoc(hash, FileKey(rel, hash(path)), db[FileKey(rel, hash(path))]);
    }
  }

  lemma {:induction false} SameDatabase(a: Database, b: Database)
    requires forall key :: Get(a, key) == Get(b, key)
    ensures a == b
  {
    SameGetsSameMap(a, b);
  }

  function WithoutRelationship(db: Database, rel: string): Database {
    map key | key in db && key.rel != rel :: db[key]
  }

  /** Nothing is left of the relationship: no record, no checkpoint, no marker. */
  lemma {:induction false} ClearedView(hash: PathHash, db: Database, rel: string)
    requires ValidDb(hash, db)
    ensures ValidDb(hash, WithoutRelationship(db, rel))
    ensures ViewOf(hash, WithoutRelationship(db, rel), rel) == map[]
    ensures Listing(hash, WithoutRelationship(db, rel), rel) == map[]
    ensures CheckpointOf(WithoutRelationship(db, rel), rel) == None && MigrationOf(WithoutRelationship(db, rel), rel) == None
  {
    assert FileDocs(WithoutRelationship(db, rel), rel) == {};
  }

  /** The documents that hold the records of a relationship are the same. */
  ghost predicate SameRecords(before: Database, after: Database, rel: string) {
    forall key: Key :: key.rel == rel && !key.CheckpointKey? && !key.MigrationKey? ==> Get(after, key) == Get(before, key)
  }

  lemma {:induction false} SameFileDocsSameViews(hash: PathHash, before: Database, after: Database)
    requires CollisionFree(hash) && ValidDb(hash, before) && ValidDb(hash, after)
    requires forall key: Key :: !key.CheckpointKey? && !key.MigrationKey? ==> Get(after, key) == Get(before, key)
    ensures forall rel :: ViewOf(hash, after, rel) == ViewOf(hash, before, rel)
  {
    forall rel: string ensures ViewOf(hash, after, rel) == ViewOf(hash, before, rel) {
      forall p: string ensures Lookup(hash, after, rel, p) == Get(ViewOf(hash, before, rel), p) {
        LookupReadsView(hash, before, rel, p);
        SameLookup(hash, before, after, rel, p);
      }
      SameLookupsSameView(hash, after, rel, ViewOf(hash, before, rel));
    }
  }

  lemma {:induction false} SameFiles(hash: PathHash, before: Database, after: Database, rel: string, path: string)
    requires CollisionFree(hash) && ValidDb(hash, before) && ValidDb(hash, after)
    requires Get(after, FileKey(rel, hash(path))) == Get(before, FileKey(rel, hash(path)))
    ensures Get(FilesByPath(hash, after, rel), path) == Get(FilesByPath(hash, before, rel), path)
  {
    FilesByPathIsLookup(hash, before, rel, path);
    FilesByPathIsLookup(hash, after, rel, path);
  }

  lemma {:induction false} SameLookup(hash: PathHash, before: Database, after: Database, rel: string, path: string)
    requires CollisionFree(hash) && ValidDb(hash, before) && ValidDb(hash, after)
    requires SameRecords(before, after, rel)
    ensures Lookup(hash, after, rel, path) == Lookup(hash, before, rel, path)
    ensures HiddenFile(hash, after, rel, path) <==> HiddenFile(hash, before, rel, path)
  {
    assert Get(after, ManifestKey(rel)) == Get(before, ManifestKey(rel));
    assert Get(after, IndexKey(rel)) == Get(before, IndexKey(rel));
    assert Get(after, FileKey(rel, hash(path))) == Get(before, FileKey(rel, hash(path)));
    if ManifestKey(rel) in before {
      var key := BucketKeyFor(rel, hash(path));
      assert Get(after, key) == Get(before, key);
    } else {
      SameFiles(hash, before, after, rel, path);
      LegacyLookup(hash, before, rel, path);
      LegacyLookup(hash, after, rel, path);
    }
  }
}
