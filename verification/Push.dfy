/**
 Push: every walked entry is classified; regular files are hashed, recognised, moved, adopted
 or uploaded in batches; symlinks, deletions and the end of a root migration follow. This is
 the whole run as a function of the tree, of the order in which files get ready, and of what
 the server and the store answer. `PushSync` carries it out; the other modules reason about it.
 */
module Push {
  import opened Prelude
  import opened Chunks
  import opened Paths
  import opened Planning
  import opened Batching
  import opened Hierarchy
  import opened MetadataStore

  datatype ScanMode = Lite | Full

  datatype Config = Config(
    mode: ScanMode,
    localBase: Components,
    remoteBase: string,
    migration: Option<RootMove>,
    exclusions: seq<string>,
    deletesRemotely: bool,
    matchesFilter: string -> bool,
    linkHash: (string, string) -> Digest,     // `symlink_identity_hash`
    blob: BlobConfig)

  datatype Hashed = Hashed(hash: Digest, size: nat)

  /** What the file system says of a walked entry; `hashed` is what reading the file comes to. */
  datatype Kind =
    | NoMetadata
    | Stray                                   // not below the local base
    | Special                                 // neither file nor symlink
    | Link(target: Option<string>, linkTime: int)
    | Regular(size: nat, mtime: Option<int>, hashed: Option<Hashed>, contentType: Option<string>)

  datatype Entry = Entry(relative: Components, kind: Kind)

  datatype Tally = Tally(processed: nat, pushed: nat, skipped: nat, failed: nat, deleted: nat, bytes: nat, errors: nat)

  const NO_TALLY := Tally(0, 0, 0, 0, 0, 0, 0)

  function Completed(t: Tally): Tally { t.(processed := t.processed + 1) }

  function Skipped(t: Tally): Tally { t.(skipped := t.skipped + 1) }

  function Failed(t: Tally): Tally { t.(failed := t.failed + 1, errors := t.errors + 1) }

  function PushedOne(t: Tally): Tally { t.(pushed := t.pushed + 1) }

  // ---------------------------------------------------------------------------------------
  // The scan
  // ---------------------------------------------------------------------------------------

  /** A file to hash, with the record it had when the scan began. */
  datatype Request = Request(
    relative: Components,
    path: string,
    oldPath: Option<string>,
    mtime: int,
    hashed: Option<Hashed>,
    contentType: Option<string>,
    stored: Option<FileSyncMeta>)

  datatype LinkTask = LinkTask(path: string, hash: Digest, mtime: int)

  function RemotePath(cfg: Config, e: Entry): string {
    ComputeRemotePath(e.relative, cfg.remoteBase)
  }

  function OldPath(cfg: Config, e: Entry): Option<string> {
    if cfg.migration.Some? then OldRemotePath(cfg.localBase + e.relative, cfg.migration.value) else None
  }

  function FileName(relative: Components): string {
    if relative == [] then "" else relative[|relative| - 1]
  }

  /** `can_lite_fast_skip`. */
  predicate LiteSkips(mode: ScanMode, stored: Option<FileSyncMeta>, size: nat, mtime: int) {
    mode.Lite? && stored.Some? &&
    stored.value.status.Synced? && stored.value.size == size && stored.value.modifiedAt == mtime
  }

  /** `can_lite_fast_skip_symlink`. */
  predicate LiteSkipsLink(mode: ScanMode, stored: Option<FileSyncMeta>, hash: Digest) {
    mode.Lite? && stored.Some? && stored.value.status.Synced? && stored.value.contentHash == hash
  }

  /** What the scan makes of one entry. */
  datatype Verdict = Ignore | Unreadable | Skip | Prepare(request: Request) | MakeLink(task: LinkTask)

  function Judge(cfg: Config, mem: View, e: Entry): Verdict {
    match e.kind
    case NoMetadata => Unreadable
    case Stray => Ignore
    case Special => Ignore
    case Link(target, linkTime) =>
      if target.None? then Unreadable
      else
        var hash := cfg.linkHash(RemotePath(cfg, e), target.value);
        if LiteSkipsLink(cfg.mode, Get(mem, RemotePath(cfg, e)), hash) then Skip
        else MakeLink(LinkTask(RemotePath(cfg, e), hash, linkTime))
    case Regular(size, mtime, hashed, contentType) =>
      if !cfg.matchesFilter(FileName(e.relative)) then Skip
      else if mtime.None? then Unreadable
      else if LiteSkips(cfg.mode, Get(mem, RemotePath(cfg, e)), size, mtime.value) then Skip
      else
        Prepare(Request(e.relative, RemotePath(cfg, e), OldPath(cfg, e), mtime.value, hashed, contentType, Get(mem, RemotePath(cfg, e))))
  }

  /** Only symlinks and files that pass the filter are marked as seen. */
  predicate Marks(cfg: Config, e: Entry) {
    e.kind.Link? || (e.kind.Regular? && cfg.matchesFilter(FileName(e.relative)))
  }

  datatype Scan = Scan(tally: Tally, seen: set<string>, requests: seq<Request>, links: seq<LinkTask>)

  const NO_SCAN := Scan(NO_TALLY, {}, [], [])

  function ScanStep(cfg: Config, mem: View, s: Scan, e: Entry): Scan {
    var seen := if Marks(cfg, e) then s.seen + {RemotePath(cfg, e)} else s.seen;
    match Judge(cfg, mem, e)
    case Ignore => s.(seen := seen, tally := Completed(s.tally))
    case Unreadable => s.(seen := seen, tally := Completed(Failed(s.tally)))
    case Skip => s.(seen := seen, tally := Completed(Skipped(s.tally)))
    case Prepare(request) => s.(seen := seen, requests := s.requests + [request])
    case MakeLink(task) => s.(seen := seen, links := s.links + [task])
  }

  function ScanAll(cfg: Config, mem: View, walk: seq<Entry>): Scan {
    if walk == [] then NO_SCAN
    else ScanStep(cfg, mem, ScanAll(cfg, mem, walk[..|walk| - 1]), walk[|walk| - 1])
  }

  // ---------------------------------------------------------------------------------------
  // The state of a run
  // ---------------------------------------------------------------------------------------

  /** A remote node by its hash: the content hash of a file, the identity hash of a symlink. */
  datatype RemoteNode = RFile(hash: Digest) | RLink(hash: Digest)

  type Remote = map<string, RemoteNode>

  /** Operations asked of the server, whether they succeed or not. */
  datatype Op = Upload(files: seq<PendingPushFile>) | Rename(from: string, to: string) | PutLink(path: string) | Delete(path: string)

  /**
   Kept for reasoning only: every hash the server has held under a path; the hashes recorded
   after a 403, to suppress retries; the hashes queued for direct uploads that streamed other
   bytes; the hashes a pull recorded for files it put together wrongly; the batches that went
   direct; and the operations asked for.
   */
  datatype Ledger = Ledger(
    held: set<(string, Digest)>,
    suppressed: set<(string, Digest)>,
    overtaken: set<(string, Digest)>,
    misassembled: set<(string, Digest)>,
    streams: seq<seq<PendingPushFile>>,
    ops: seq<Op>)

  datatype PushState = PushState(
    remote: Remote,
    store: View,                              // the metadata store
    mem: View,                                // `metadata_by_path`
    pending: seq<FileSyncMeta>,               // `pending_metadata_updates`
    batch: seq<PendingPushFile>,
    tally: Tally,
    halted: bool,                             // returned with an error, or was killed
    ledger: Ledger)

  function Halt(st: PushState): PushState { st.(halted := true) }

  function Issue(st: PushState, op: Op): PushState {
    st.(ledger := st.ledger.(ops := st.ledger.ops + [op]))
  }

  function SetRemote(st: PushState, path: string, node: RemoteNode): PushState {
    st.(remote := st.remote[path := node], ledger := st.ledger.(held := st.ledger.held + {(path, node.hash)}))
  }

  /** `make_file_meta`. */
  function FileMeta(file: PendingPushFile): FileSyncMeta {
    FileSyncMeta(file.remotePath, file.contentHash, file.fileSize, file.modifiedAt, Synced)
  }

  function Metas(files: seq<PendingPushFile>): (metas: seq<FileSyncMeta>)
    ensures |metas| == |files| && forall i :: 0 <= i < |files| ==> metas[i] == FileMeta(files[i])
  {
    seq(|files|, i requires 0 <= i < |files| => FileMeta(files[i]))
  }

  // ---------------------------------------------------------------------------------------
  // Flushing
  // ---------------------------------------------------------------------------------------

  function Declared(files: seq<PendingPushFile>): (hashes: seq<Digest>)
    ensures |hashes| == |files| && forall i :: 0 <= i < |files| ==> hashes[i] == files[i].contentHash
  {
    seq(|files|, i requires 0 <= i < |files| => files[i].contentHash)
  }

  /**
   How much of an upload took effect on the server, whatever was answered. The chunked protocol
   lands every file under its queued hash, or nothing; direct uploads land the first files, each
   with the bytes it had when it was streamed.
   */
  datatype Delivery = Chunked(arrived: bool) | Direct(contents: seq<Digest>)

  /** The contents of the first files, as far as they arrived. */
  function Arrivals(files: seq<PendingPushFile>, d: Delivery): (contents: seq<Digest>)
    ensures |contents| <= |files|
  {
    match d
    case Chunked(arrived) => if arrived then Declared(files) else []
    case Direct(contents) => if |contents| <= |files| then contents else contents[..|files|]
  }

  /** What a file pushed on its own comes to: the last two with or without having taken effect. */
  datatype Fate =
    | FileLanded(delivery: Delivery)
    | FileForbidden(delivery: Delivery, suppressed: bool)
    | FileRefused(delivery: Delivery)
    | FileHalts(delivery: Delivery)           // an error that ends the push

  /** What handing over a batch comes to. A batch that fails may have taken effect all the same. */
  datatype FlushOut =
    | BatchLanded(delivery: Delivery, stored: bool)
    | BatchHalts(delivery: Delivery)
    | Isolated(delivery: Delivery, fates: seq<Fate>, stored: bool)

  function LandFile(st: PushState, file: PendingPushFile, content: Digest): PushState {
    var landed := SetRemote(st, file.remotePath, RFile(content));
    if content == file.contentHash then landed
    else landed.(ledger := landed.ledger.(overtaken := landed.ledger.overtaken + {(file.remotePath, file.contentHash)}))
  }

  function LandAll(st: PushState, files: seq<PendingPushFile>, contents: seq<Digest>): PushState
    requires |files| == |contents|
  {
    if files == [] then st
    else
      var n := |files| - 1;
      LandFile(LandAll(st, files[..n], contents[..n]), files[n], contents[n])
  }

  /** What arrived of an upload. */
  function Arrive(st: PushState, files: seq<PendingPushFile>, d: Delivery): PushState {
    var contents := Arrivals(files, d);
    var landed := LandAll(st, files[..|contents|], contents);
    if d.Direct? then landed.(ledger := landed.ledger.(streams := landed.ledger.streams + [files])) else landed
  }

  /** `record_push_failure`, or success. */
  function IsolateFile(st: PushState, file: PendingPushFile, fate: Fate): PushState {
    if st.halted then st
    else
      var tried := Arrive(st, [file], fate.delivery);
      match fate
      case FileLanded(d) => if |Arrivals([file], d)| == 1 then tried else Halt(tried)
      case FileRefused(_) => tried.(tally := Failed(st.tally))
      case FileHalts(_) => Halt(tried)
      case FileForbidden(_, suppressed) =>
        var failed := tried.(tally := Failed(st.tally));
        if suppressed then
          failed.(store := st.store[file.remotePath := FileMeta(file)],
                  ledger := failed.ledger.(suppressed := failed.ledger.suppressed + {(file.remotePath, file.contentHash)}))
        else failed
  }

  function Isolate(st: PushState, files: seq<PendingPushFile>, fates: seq<Fate>): PushState
    requires |files| == |fates|
  {
    if files == [] then st
    else
      var n := |files| - 1;
      IsolateFile(Isolate(st, files[..n], fates[..n]), files[n], fates[n])
  }

  function Good(files: seq<PendingPushFile>, fates: seq<Fate>): seq<PendingPushFile>
    requires |files| == |fates|
  {
    if files == [] then []
    else
      var n := |files| - 1;
      Good(files[..n], fates[..n]) + if fates[n].FileLanded? then [files[n]] else []
  }

  /** The pushed files are recorded in memory, and their records queued for the store. */
  function Record(st: PushState, files: seq<PendingPushFile>): PushState {
    st.(mem := WriteAll(st.mem, Metas(files)),
        pending := st.pending + Metas(files),
        tally := st.tally.(pushed := st.tally.pushed + |files|, bytes := st.tally.bytes + TotalBytes(files)))
  }

  /** `flush_pending_metadata_updates`; a store error ends the push. */
  function FlushPending(st: PushState, stored: bool): PushState {
    if st.halted || st.pending == [] then st
    else if stored then st.(store := WriteAll(st.store, st.pending), pending := [])
    else Halt(st.(pending := []))
  }

  /** The batch was refused: every file on its own, until one ends the push. */
  function IsolateAll(st: PushState, files: seq<PendingPushFile>, fates: seq<Fate>, stored: bool): PushState
    requires |files| == |fates|
  {
    var isolated := Isolate(st, files, fates);
    if isolated.halted then isolated else FlushPending(Record(isolated, Good(files, fates)), stored)
  }

  /** What an outcome makes of a batch that was handed over; one that does not fit ends the push. */
  function HandOver(st: PushState, files: seq<PendingPushFile>, out: FlushOut): PushState {
    var tried := Arrive(st, files, out.delivery);
    match out
    case BatchHalts(_) => Halt(tried)
    case BatchLanded(d, stored) =>
      if |Arrivals(files, d)| != |files| then Halt(tried) else FlushPending(Record(tried, files), stored)
    case Isolated(_, fates, stored) =>
      if |fates| != |files| then Halt(tried) else IsolateAll(tried, files, fates, stored)
  }

  /** `flush_push_batch`. */
  function Flush(st: PushState, out: FlushOut): PushState {
    if st.halted || st.batch == [] then st
    else HandOver(Issue(st.(batch := []), Upload(st.batch)), st.batch, out)
  }

  /** The entry is done; every hundredth one flushes the batch. */
  function Complete(st: PushState, out: FlushOut): PushState {
    if st.halted then st
    else
      var completed := st.(tally := Completed(st.tally));
      if completed.tally.processed % 100 == 0 then Flush(completed, out) else completed
  }

  // ---------------------------------------------------------------------------------------
  // One prepared file
  // ---------------------------------------------------------------------------------------

  datatype MoveEnd = RenameRefused | StoppedRenamed | StoppedDropped | Moved

  datatype AdoptEnd = StoppedBeforeDrop | StoppedBeforeSet | Adopted

  /**
   Everything that may go one way or another while a prepared file is handled. A query that was
   not asked counts as answered.
   */
  datatype FileOut = FileOut(
    sourceAnswered: bool,
    move: MoveEnd,
    targetAnswered: bool,
    adopt: AdoptEnd,
    before: FlushOut,
    now: FlushOut,
    progress: FlushOut)

  datatype Decision = HashSkip | Migrate | Adopt | Queue

  predicate HasContent(remote: Remote, path: string, hash: Digest) {
    Get(remote, path) == Some(RFile(hash))
  }

  /** The record of the old path names this very content. */
  predicate Movable(mem: View, r: Request, hash: Digest) {
    r.oldPath.Some? && r.oldPath.value in mem && r.oldPath.value != r.path &&
    mem[r.oldPath.value].contentHash == hash
  }

  function Decide(remote: Remote, mem: View, r: Request, out: FileOut): Decision
    requires r.hashed.Some?
  {
    var hash := r.hashed.value.hash;
    if r.stored.Some? && r.stored.value.contentHash == hash then HashSkip
    else if r.stored.Some? then Queue
    else if Movable(mem, r, hash) && out.sourceAnswered && HasContent(remote, r.oldPath.value, hash) then Migrate
    else if r.oldPath.Some? && out.targetAnswered && HasContent(remote, r.path, hash) then Adopt
    else Queue
  }

  function Candidate(r: Request): PendingPushFile
    requires r.hashed.Some?
  {
    PendingPushFile(Join(r.relative), r.path, r.hashed.value.hash, r.hashed.value.size, r.mtime, r.contentType)
  }

  /** The record a pushed file ends up with. */
  function MetaOf(r: Request): FileSyncMeta
    requires r.hashed.Some?
  {
    FileSyncMeta(r.path, r.hashed.value.hash, r.hashed.value.size, r.mtime, Synced)
  }

  /** `needs_hash_skip_metadata_update`. */
  predicate NeedsUpdate(meta: FileSyncMeta, size: nat, mtime: int) {
    !meta.status.Synced? || meta.size != size || meta.modifiedAt != mtime
  }

  function HashSkipped(st: PushState, r: Request): PushState
    requires r.hashed.Some? && r.stored.Some?
  {
    var skipped := st.(tally := Skipped(st.tally));
    if NeedsUpdate(r.stored.value, r.hashed.value.size, r.mtime) then
      skipped.(mem := st.mem[r.path := MetaOf(r)], pending := st.pending + [MetaOf(r)])
    else skipped
  }

  /** The verified move: remote rename, old record out, new record in. */
  function MigratedFile(st: PushState, r: Request, end: MoveEnd): PushState
    requires r.hashed.Some? && r.oldPath.Some?
  {
    var from := r.oldPath.value;
    var asked := Issue(st, Rename(from, r.path));
    if end.RenameRefused? then asked.(tally := Failed(st.tally))
    else
      var renamed := SetRemote(asked.(remote := st.remote - {from}), r.path, RFile(r.hashed.value.hash));
      if end.StoppedRenamed? then Halt(renamed)
      else
        var dropped := renamed.(store := st.store - {from});
        if end.StoppedDropped? then Halt(dropped)
        else
          dropped.(store := (st.store - {from})[r.path := MetaOf(r)],
                   mem := (st.mem - {from})[r.path := MetaOf(r)],
                   tally := PushedOne(st.tally))
  }

  /** The target already holds the content: only the records change. */
  function AdoptedFile(st: PushState, r: Request, end: AdoptEnd): PushState
    requires r.hashed.Some? && r.oldPath.Some?
  {
    var from := r.oldPath.value;
    var tracked := from in st.mem;
    if tracked && end.StoppedBeforeDrop? then Halt(st)
    else
      var dropped := if tracked then st.(store := st.store - {from}, mem := st.mem - {from}) else st;
      if !end.Adopted? then Halt(dropped)
      else
        dropped.(store := dropped.store[r.path := MetaOf(r)],
                 mem := dropped.mem[r.path := MetaOf(r)],
                 tally := Skipped(st.tally))
  }

  /** The batch takes the candidate, with the flushes its limits ask for. */
  function Enqueue(cfg: Config, st: PushState, file: PendingPushFile, out: FileOut): PushState {
    var ready := if FlushBefore(st.batch, file, cfg.blob) then Flush(st, out.before) else st;
    if ready.halted then ready
    else
      var queued := ready.(batch := ready.batch + [file]);
      if FlushNow(queued.batch, cfg.blob) then Flush(queued, out.now) else queued
  }

  function Handle(cfg: Config, st: PushState, r: Request, out: FileOut): PushState
    requires r.hashed.Some?
  {
    match Decide(st.remote, st.mem, r, out)
    case HashSkip => HashSkipped(st, r)
    case Migrate => MigratedFile(st, r, out.move)
    case Adopt => AdoptedFile(st, r, out.adopt)
    case Queue => Enqueue(cfg, st, Candidate(r), out)
  }

  function FileStep(cfg: Config, st: PushState, r: Request, out: FileOut): PushState {
    if st.halted then st
    else if r.hashed.None? then Complete(st.(tally := Failed(st.tally)), out.progress)
    else Complete(Handle(cfg, st, r, out), out.progress)
  }

  function Files(cfg: Config, st: PushState, requests: seq<Request>, outs: seq<FileOut>): PushState
    requires |requests| == |outs|
  {
    if requests == [] then st
    else
      var n := |requests| - 1;
      FileStep(cfg, Files(cfg, st, requests[..n], outs[..n]), requests[n], outs[n])
  }

  // ---------------------------------------------------------------------------------------
  // Symlinks
  // ---------------------------------------------------------------------------------------

  datatype LinkOut = LinkOut(inspected: bool, made: bool)

  /** `synced_symlink_meta`. */
  function LinkMeta(task: LinkTask): FileSyncMeta {
    FileSyncMeta(task.path, task.hash, 0, task.mtime, Synced)
  }

  function RecordLink(st: PushState, task: LinkTask): PushState {
    st.(mem := st.mem[task.path := LinkMeta(task)], pending := st.pending + [LinkMeta(task)])
  }

  function LinkStep(cfg: Config, st: PushState, task: LinkTask, out: LinkOut): PushState {
    if st.halted then st
    else
      var processed := st.(tally := Completed(st.tally));
      if cfg.mode.Lite? && out.inspected && Get(st.remote, task.path) == Some(RLink(task.hash)) then
        RecordLink(processed.(tally := Skipped(processed.tally)), task)
      else
        var asked := Issue(processed, PutLink(task.path));
        if out.made then RecordLink(SetRemote(asked, task.path, RLink(task.hash)).(tally := PushedOne(processed.tally)), task)
        else asked.(tally := Failed(processed.tally))
  }

  function Links(cfg: Config, st: PushState, tasks: seq<LinkTask>, outs: seq<LinkOut>): PushState
    requires |tasks| == |outs|
  {
    if tasks == [] then st
    else
      var n := |tasks| - 1;
      LinkStep(cfg, Links(cfg, st, tasks[..n], outs[..n]), tasks[n], outs[n])
  }

  // ---------------------------------------------------------------------------------------
  // The end of the run
  // ---------------------------------------------------------------------------------------

  predicate UnderOldBase(cfg: Config, path: string) {
    cfg.migration.Some? && IsUnderRemoteBase(path, cfg.migration.value.oldRemote)
  }

  /** Records of the old base that no scanned file carries on. */
  function StalePaths(cfg: Config, mem: View, seen: set<string>): set<string> {
    set p | p in mem && UnderOldBase(cfg, p) && p !in seen
  }

  /** `cleanup_unseen_migration_metadata`, if nothing failed; `dropped` is how far a store error let it get. */
  function Cleanup(cfg: Config, st: PushState, seen: set<string>, finishes: bool, dropped: set<string>): PushState {
    var stale := StalePaths(cfg, st.mem, seen);
    if st.halted || cfg.migration.None? || st.tally.errors > 0 then st
    else if finishes then st.(store := st.store - stale, mem := st.mem - stale)
    else Halt(st.(store := st.store - (dropped * stale), mem := st.mem - (dropped * stale)))
  }

  /** The records whose file is gone from disk, as far as this run can tell. */
  function DeletionCandidates(cfg: Config, mem: View, seen: set<string>): set<string> {
    if !cfg.deletesRemotely then {}
    else set p | p in mem && p !in seen && !UnderOldBase(cfg, p) && !IsExcludedByChild(p, cfg.exclusions)
  }

  datatype DeleteOut = Deleted | DeleteRefused | StoppedDeleted

  function DeleteStep(st: PushState, path: string, out: DeleteOut): PushState {
    if st.halted then st
    else
      var asked := Issue(st, Delete(path));
      match out
      case DeleteRefused => asked.(tally := Failed(st.tally))
      case StoppedDeleted => Halt(asked.(remote := st.remote - {path}))
      case Deleted =>
        asked.(remote := st.remote - {path}, store := st.store - {path},
               tally := st.tally.(deleted := st.tally.deleted + 1))
  }

  function Deletions(st: PushState, paths: seq<string>, outs: seq<DeleteOut>): PushState
    requires |paths| == |outs|
  {
    if paths == [] then st
    else
      var n := |paths| - 1;
      DeleteStep(Deletions(st, paths[..n], outs[..n]), paths[n], outs[n])
  }

  // ---------------------------------------------------------------------------------------
  // The whole run
  // ---------------------------------------------------------------------------------------

  /** The order in which things got done, and what came of each. */
  datatype Trace = Trace(
    requests: seq<Request>,
    fileOuts: seq<FileOut>,
    lastFlush: FlushOut,
    pendingStored: bool,
    links: seq<LinkTask>,
    linkOuts: seq<LinkOut>,
    linksStored: bool,
    cleanupFinishes: bool,
    dropped: set<string>,
    deletions: seq<string>,
    deleteOuts: seq<DeleteOut>)

  /** The run starts from the listing of the store. */
  function Started(st: PushState, tally: Tally): PushState {
    st.(mem := st.store, pending := [], batch := [], tally := tally, halted := false)
  }

  function AfterScan(cfg: Config, st: PushState, walk: seq<Entry>): PushState {
    Started(st, ScanAll(cfg, st.store, walk).tally)
  }

  function AfterFiles(cfg: Config, st: PushState, walk: seq<Entry>, t: Trace): PushState
    requires |t.requests| == |t.fileOuts|
  {
    FlushPending(Flush(Files(cfg, AfterScan(cfg, st, walk), t.requests, t.fileOuts), t.lastFlush), t.pendingStored)
  }

  function AfterLinks(cfg: Config, st: PushState, walk: seq<Entry>, t: Trace): PushState
    requires |t.requests| == |t.fileOuts| && |t.links| == |t.linkOuts|
  {
    FlushPending(Links(cfg, AfterFiles(cfg, st, walk, t), t.links, t.linkOuts), t.linksStored)
  }

  function AfterCleanup(cfg: Config, st: PushState, walk: seq<Entry>, t: Trace): PushState
    requires |t.requests| == |t.fileOuts| && |t.links| == |t.linkOuts|
  {
    Cleanup(cfg, AfterLinks(cfg, st, walk, t), ScanAll(cfg, st.store, walk).seen, t.cleanupFinishes, t.dropped)
  }

  /** Every request, every symlink and every deletion candidate once, in any order. */
  ghost predicate ValidTrace(cfg: Config, st: PushState, walk: seq<Entry>, t: Trace) {
    var scan := ScanAll(cfg, st.store, walk);
    |t.requests| == |t.fileOuts| && |t.links| == |t.linkOuts| && |t.deletions| == |t.deleteOuts| &&
    multiset(t.requests) == multiset(scan.requests) && multiset(t.links) == multiset(scan.links) &&
    Distinct(t.deletions) &&
    (!AfterCleanup(cfg, st, walk, t).halted ==>
      Elements(t.deletions) == DeletionCandidates(cfg, AfterCleanup(cfg, st, walk, t).mem, scan.seen))
  }

  /** `push_sync`: the state it leaves behind. */
  function After(cfg: Config, st: PushState, walk: seq<Entry>, t: Trace): PushState
    requires |t.requests| == |t.fileOuts| && |t.links| == |t.linkOuts| && |t.deletions| == |t.deleteOuts|
  {
    Deletions(AfterCleanup(cfg, st, walk, t), t.deletions, t.deleteOuts)
  }

  /** The marker of a root migration goes when nothing failed. */
  predicate ClearsMarker(cfg: Config, after: PushState) {
    cfg.migration.Some? && !after.halted && after.tally.errors == 0
  }

  // ---------------------------------------------------------------------------------------
  // What a walk gives
  // ---------------------------------------------------------------------------------------

  /** The walk meets every path once. */
  ghost predicate ProperWalk(walk: seq<Entry>) {
    (forall i :: 0 <= i < |walk| ==> AllComponents(walk[i].relative)) &&
    (forall i, j :: 0 <= i < j < |walk| ==> walk[i].relative != walk[j].relative)
  }
}
