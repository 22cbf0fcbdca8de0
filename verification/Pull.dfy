/**
 Pull: the remote diff since the checkpoint is planned, fetched, assembled, and its deletions
 and symlinks are applied, in that order; then the checkpoint moves. The effect is a fold over
 the diff and what the operating system made of every entry, and that fold decides when the
 local tree mirrors the remote one.
 */
module Pull {
  import opened Prelude
  import opened Chunks
  import opened Paths
  import opened Planning
  import opened Assemble
  import opened Hierarchy
  import opened MetadataStore

  datatype FileEntry = FileEntry(path: string, chunkHashes: seq<Digest>)

  datatype LinkEntry = LinkEntry(path: string, hash: Digest, target: string)

  datatype Diff = Diff(
    rootHash: string,
    filesAdded: seq<FileEntry>,
    filesModified: seq<FileEntry>,
    filesDeleted: seq<string>,
    linksAdded: seq<LinkEntry>,
    linksModified: seq<LinkEntry>,
    linksDeleted: seq<string>)
  {
    function Files(): seq<FileEntry> { filesAdded + filesModified }

    function Links(): seq<LinkEntry> { linksAdded + linksModified }
  }

  datatype Config = Config(
    remoteBase: string,
    exclusions: seq<string>,
    matchesFilter: string -> bool,
    deletesLocally: bool,
    blob: BlobConfig,
    links: Symlinks)

  datatype Tally = Tally(pulled: nat, skipped: nat, failed: nat, deleted: nat, links: nat, errors: nat)

  const NO_TALLY := Tally(0, 0, 0, 0, 0, 0)

  datatype PullState = PullState(nodes: Tree, records: View, tally: Tally)

  // ---------------------------------------------------------------------------------------
  // What the environment makes of every entry
  // ---------------------------------------------------------------------------------------

  datatype FileOutcome =
    | FileSkipped
    | FileUnprepared                                  // no parent directory, or a failed fetch
    | FileFailed(leftover: Option<Node>)              // failed assembly, and what is left of the temporary file
    | FilePulled(hashed: bool, bytes: Bytes, nodeTime: int, recordTime: int, recorded: bool)   // hashed: whether its old file could be read

  datatype DeleteOutcome = NotOurs | DeleteFailed | Deleted(recordDropped: bool)

  datatype LinkOutcome = LinkSkipped | LinkFailed(removed: bool) | LinkMade(recordTime: int, recorded: bool)

  datatype Trace = Trace(
    files: seq<FileOutcome>,
    fileDeletes: seq<DeleteOutcome>,
    links: seq<LinkOutcome>,
    linkDeletes: seq<DeleteOutcome>)

  function Local(cfg: Config, path: string): Components {
    ComputeLocalPath(path, cfg.remoteBase)
  }

  function Tmp(cfg: Config, path: string): Components {
    TmpPath(Local(cfg, path))
  }

  /** `Path::file_name`. */
  function FileName(path: string): string {
    var names := Kept(Split(path));
    if names == [] || names[|names| - 1] == ".." then "" else names[|names| - 1]
  }

  predicate Excluded(cfg: Config, path: string) {
    IsExcludedByChild(path, cfg.exclusions)
  }

  predicate Passes(cfg: Config, path: string) {
    cfg.matchesFilter(FileName(path))
  }

  function FilesDeletedHere(cfg: Config, diff: Diff): seq<string> {
    if cfg.deletesLocally then diff.filesDeleted else []
  }

  function LinksDeletedHere(cfg: Config, diff: Diff): seq<string> {
    if cfg.deletesLocally then diff.linksDeleted else []
  }

  /** Exclusion and filter decide what is skipped; symlinks and deletions know no filter. */
  ghost predicate Fits(cfg: Config, diff: Diff, trace: Trace) {
    |trace.files| == |diff.Files()| && |trace.fileDeletes| == |FilesDeletedHere(cfg, diff)| &&
    |trace.links| == |diff.Links()| && |trace.linkDeletes| == |LinksDeletedHere(cfg, diff)| &&
    (forall i :: 0 <= i < |diff.Files()| ==>
      (trace.files[i].FileSkipped? <==> Excluded(cfg, diff.Files()[i].path) || !Passes(cfg, diff.Files()[i].path))) &&
    (forall i :: 0 <= i < |FilesDeletedHere(cfg, diff)| ==>
      (trace.fileDeletes[i].NotOurs? <==> Excluded(cfg, FilesDeletedHere(cfg, diff)[i]))) &&
    (forall i :: 0 <= i < |diff.Links()| ==>
      (trace.links[i].LinkSkipped? <==> Excluded(cfg, diff.Links()[i].path))) &&
    (forall i :: 0 <= i < |LinksDeletedHere(cfg, diff)| ==>
      (trace.linkDeletes[i].NotOurs? <==> Excluded(cfg, LinksDeletedHere(cfg, diff)[i])))
  }

  // ---------------------------------------------------------------------------------------
  // The effect of a pull
  // ---------------------------------------------------------------------------------------

  function Put<K, V>(m: map<K, V>, k: K, v: Option<V>): map<K, V> {
    if v.Some? then m[k := v.value] else m - {k}
  }

  function Content(cfg: Config, e: FileEntry): Bytes {
    ContentOf(cfg.blob.chunkHashPrefix, e.chunkHashes)
  }

  function FileRecord(e: FileEntry, bytes: Bytes, recordTime: int): FileSyncMeta {
    FileSyncMeta(e.path, ContentHash(bytes), |bytes|, recordTime, Synced)
  }

  function LinkRecord(e: LinkEntry, recordTime: int): FileSyncMeta {
    FileSyncMeta(e.path, e.hash, 0, recordTime, Synced)
  }

  function FileStep(cfg: Config, st: PullState, e: FileEntry, out: FileOutcome): PullState {
    match out
    case FileSkipped => st.(tally := st.tally.(skipped := st.tally.skipped + 1))
    case FileUnprepared => Failing(st)
    case FileFailed(leftover) => Failing(st.(nodes := Put(st.nodes, Tmp(cfg, e.path), leftover)))
    case FilePulled(_, bytes, nodeTime, recordTime, recorded) =>
      PullState(
        (st.nodes - {Tmp(cfg, e.path)})[Local(cfg, e.path) := LocalFile(bytes, nodeTime)],
        if recorded then st.records[e.path := FileRecord(e, bytes, recordTime)] else st.records,
        WithErrorUnless(recorded, st.tally.(pulled := st.tally.pulled + 1)))
  }

  function Failing(st: PullState): PullState {
    st.(tally := st.tally.(failed := st.tally.failed + 1, errors := st.tally.errors + 1))
  }

  function WithErrorUnless(ok: bool, tally: Tally): Tally {
    if ok then tally else tally.(errors := tally.errors + 1)
  }

  /** `Path::exists`, which follows a symlink. */
  predicate Exists(cfg: Config, nodes: Tree, path: Components) {
    !Follow(nodes, cfg.links, path, cfg.links.most).Nothing?
  }

  function DropRecord(records: View, path: string, dropped: bool): View {
    if dropped then records - {path} else records
  }

  function FileDeleteStep(cfg: Config, st: PullState, path: string, out: DeleteOutcome): PullState {
    match out
    case NotOurs => st
    case DeleteFailed => Failing(st)
    case Deleted(dropped) =>
      PullState(
        if Exists(cfg, st.nodes, Local(cfg, path)) then st.nodes - {Local(cfg, path)} else st.nodes,
        DropRecord(st.records, path, dropped),
        WithErrorUnless(dropped, st.tally.(deleted := st.tally.deleted + 1)))
  }

  function LinkStep(cfg: Config, st: PullState, e: LinkEntry, out: LinkOutcome): PullState {
    match out
    case LinkSkipped => st
    case LinkFailed(removed) =>
      Failing(st.(nodes := if removed then st.nodes - {Local(cfg, e.path)} else st.nodes))
    case LinkMade(recordTime, recorded) =>
      PullState(
        st.nodes[Local(cfg, e.path) := LocalLink(e.target)],
        if recorded then st.records[e.path := LinkRecord(e, recordTime)] else st.records,
        WithErrorUnless(recorded, st.tally.(links := st.tally.links + 1)))
  }

  function LinkDeleteStep(cfg: Config, st: PullState, path: string, out: DeleteOutcome): PullState {
    match out
    case NotOurs => st
    case DeleteFailed => Failing(st)
    case Deleted(dropped) =>
      PullState(
        st.nodes - {Local(cfg, path)},
        DropRecord(st.records, path, dropped),
        WithErrorUnless(dropped, st.tally.(deleted := st.tally.deleted + 1)))
  }

  // One phase after the other: a step for every item in turn.

  function ApplyFiles(cfg: Config, st: PullState, items: seq<FileEntry>, outs: seq<FileOutcome>): PullState
    requires |items| == |outs|
  {
    if items == [] then st
    else
      var n := |items| - 1;
      FileStep(cfg, ApplyFiles(cfg, st, items[..n], outs[..n]), items[n], outs[n])
  }

  function ApplyFileDeletes(cfg: Config, st: PullState, items: seq<string>, outs: seq<DeleteOutcome>): PullState
    requires |items| == |outs|
  {
    if items == [] then st
    else
      var n := |items| - 1;
      FileDeleteStep(cfg, ApplyFileDeletes(cfg, st, items[..n], outs[..n]), items[n], outs[n])
  }

  function ApplyLinks(cfg: Config, st: PullState, items: seq<LinkEntry>, outs: seq<LinkOutcome>): PullState
    requires |items| == |outs|
  {
    if items == [] then st
    else
      var n := |items| - 1;
      LinkStep(cfg, ApplyLinks(cfg, st, items[..n], outs[..n]), items[n], outs[n])
  }

  function ApplyLinkDeletes(cfg: Config, st: PullState, items: seq<string>, outs: seq<DeleteOutcome>): PullState
    requires |items| == |outs|
  {
    if items == [] then st
    else
      var n := |items| - 1;
      LinkDeleteStep(cfg, ApplyLinkDeletes(cfg, st, items[..n], outs[..n]), items[n], outs[n])
  }

  function AfterFiles(cfg: Config, st: PullState, diff: Diff, trace: Trace): PullState
    requires Fits(cfg, diff, trace)
  {
    ApplyFiles(cfg, st, diff.Files(), trace.files)
  }

  function AfterFileDeletes(cfg: Config, st: PullState, diff: Diff, trace: Trace): PullState
    requires Fits(cfg, diff, trace)
  {
    ApplyFileDeletes(cfg, AfterFiles(cfg, st, diff, trace), FilesDeletedHere(cfg, diff), trace.fileDeletes)
  }

  function AfterLinks(cfg: Config, st: PullState, diff: Diff, trace: Trace): PullState
    requires Fits(cfg, diff, trace)
  {
    ApplyLinks(cfg, AfterFileDeletes(cfg, st, diff, trace), diff.Links(), trace.links)
  }

  /** The whole pull. */
  function After(cfg: Config, st: PullState, diff: Diff, trace: Trace): PullState
    requires Fits(cfg, diff, trace)
  {
    ApplyLinkDeletes(cfg, AfterLinks(cfg, st, diff, trace), LinksDeletedHere(cfg, diff), trace.linkDeletes)
  }

  // ---------------------------------------------------------------------------------------
  // What a file comes out as
  // ---------------------------------------------------------------------------------------

  function OpenedFor(cfg: Config, nodes: Tree, e: FileEntry): Option<Bytes> {
    OpenedIn(nodes, cfg.links, Local(cfg, e.path))
  }

  /** What is to be reused, planned before any file is replaced; nothing if the old file could not be hashed. */
  function Reusable(cfg: Config, start: Tree, e: FileEntry, hashed: bool): LocalChunks {
    if hashed then Places(cfg.blob.chunkHashPrefix, OpenedFor(cfg, start, e), cfg.blob.chunkSize) else map[]
  }

  /** The chunks of the entry as the server has them. */
  function ServerChunks(cfg: Config, e: FileEntry): map<Digest, Bytes> {
    map h | h in e.chunkHashes :: ChunkBytes(cfg.blob.chunkHashPrefix, h)
  }

  /** What the entry is put together to: nothing compares it with its hashes. */
  function Written(cfg: Config, start: Tree, now: Tree, e: FileEntry, hashed: bool): Option<Bytes> {
    Assembled(OpenedFor(cfg, now, e), Reusable(cfg, start, e, hashed), ServerChunks(cfg, e), e.chunkHashes)
  }

  /** The tree when the turn of an entry comes. */
  function TreeAt(cfg: Config, st: PullState, items: seq<FileEntry>, outs: seq<FileOutcome>, i: nat): Tree
    requires i <= |items| == |outs|
  {
    ApplyFiles(cfg, st, items[..i], outs[..i]).nodes
  }

  predicate AsWritten(cfg: Config, st: PullState, items: seq<FileEntry>, outs: seq<FileOutcome>, i: nat)
    requires i < |items| == |outs|
  {
    outs[i].FilePulled? ==> Written(cfg, st.nodes, TreeAt(cfg, st, items, outs, i), items[i], outs[i].hashed) == Some(outs[i].bytes)
  }

  /** Possible outcomes of a pull from this state. */
  ghost predicate ValidTrace(cfg: Config, st: PullState, diff: Diff, trace: Trace) {
    Fits(cfg, diff, trace) && forall i :: 0 <= i < |diff.Files()| ==> AsWritten(cfg, st, diff.Files(), trace.files, i)
  }

  /** Every chunk the entry reuses is still in its place. */
  predicate ReusesHold(cfg: Config, start: Tree, now: Tree, e: FileEntry, hashed: bool) {
    AllStillThere(cfg.blob.chunkHashPrefix, OpenedFor(cfg, now, e), Reusable(cfg, start, e, hashed), e.chunkHashes)
  }

  /** A file comes out as its chunks say if and only if every chunk it reuses is still in its place when its turn comes. */
  lemma {:induction false} WrittenWholeIff(cfg: Config, start: Tree, now: Tree, e: FileEntry, hashed: bool)
    ensures Written(cfg, start, now, e, hashed) == Some(Content(cfg, e)) <==> ReusesHold(cfg, start, now, e, hashed)
  {
    var planned := OpenedFor(cfg, start, e);
    var bytes := if planned.Some? then planned.value else [];
    PlacesLocate(cfg.blob.chunkHashPrefix, bytes, 0, cfg.blob.chunkSize);
    AssembledIffStillThere(cfg.blob.chunkHashPrefix, bytes, OpenedFor(cfg, now, e), Reusable(cfg, start, e, hashed), ServerChunks(cfg, e), e.chunkHashes);
  }

  /** The entry leaves a file at this place, its own or what is left of its temporary one. */
  predicate Leaves(cfg: Config, e: FileEntry, out: FileOutcome, at: Components) {
    (out.FilePulled? && Local(cfg, e.path) == at) || (out.FileFailed? && out.leftover.Some? && Tmp(cfg, e.path) == at)
  }

  ghost predicate Disturbed(cfg: Config, items: seq<FileEntry>, outs: seq<FileOutcome>, at: Components)
    requires |items| == |outs|
  {
    exists j :: 0 <= j < |items| && Leaves(cfg, items[j], outs[j], at)
  }

  lemma {:induction false} UndisturbedPlace(cfg: Config, st: PullState, items: seq<FileEntry>, outs: seq<FileOutcome>, at: Components)
    requires |items| == |outs| && !Disturbed(cfg, items, outs, at)
    ensures var node := Get(ApplyFiles(cfg, st, items, outs).nodes, at); node == Get(st.nodes, at) || node == None
  {
    if items != [] {
      var n := |items| - 1;
      forall j | 0 <= j < n ensures !Leaves(cfg, items[..n][j], outs[..n][j], at) {
        assert !Leaves(cfg, items[j], outs[j], at);
      }
      UndisturbedPlace(cfg, st, items[..n], outs[..n], at);
      assert !Leaves(cfg, items[n], outs[n], at);
    }
  }

  /** No earlier entry has left a file on the way to the old file of this one. */
  ghost predicate WayIsClear(cfg: Config, start: Tree, items: seq<FileEntry>, outs: seq<FileOutcome>, i: nat)
    requires i < |items| == |outs|
  {
    forall at :: at in Way(start, cfg.links, Local(cfg, items[i].path), cfg.links.most) ==> !Disturbed(cfg, items[..i], outs[..i], at)
  }

  /** Then its file comes out as its chunks say. */
  lemma {:induction false} WholeIfWayIsClear(cfg: Config, st: PullState, items: seq<FileEntry>, outs: seq<FileOutcome>, i: nat)
    requires i < |items| == |outs| && outs[i].FilePulled? && AsWritten(cfg, st, items, outs, i) && WayIsClear(cfg, st.nodes, items, outs, i)
    ensures ReusesHold(cfg, st.nodes, TreeAt(cfg, st, items, outs, i), items[i], outs[i].hashed)
  {
    var now, e := TreeAt(cfg, st, items, outs, i), items[i];
    forall at | at in Way(st.nodes, cfg.links, Local(cfg, e.path), cfg.links.most) ensures Get(now, at) == Get(st.nodes, at) || Get(now, at) == None {
      UndisturbedPlace(cfg, st, items[..i], outs[..i], at);
    }
    FollowAlongWay(st.nodes, now, cfg.links, Local(cfg, e.path), cfg.links.most);
    ReadAsBefore(cfg, st.nodes, now, e, outs[i].hashed);
  }

  lemma {:induction false} UnchangedHolds(cfg: Config, start: Tree, now: Tree, e: FileEntry, hashed: bool)
    requires OpenedFor(cfg, now, e) == OpenedFor(cfg, start, e)
    ensures ReusesHold(cfg, start, now, e, hashed)
  {
    var planned := OpenedFor(cfg, start, e);
    if planned.Some? {
      PlacesLocate(cfg.blob.chunkHashPrefix, planned.value, 0, cfg.blob.chunkSize);
    }
  }

  lemma {:induction false} ReadAsBefore(cfg: Config, start: Tree, now: Tree, e: FileEntry, hashed: bool)
    requires OpenedFor(cfg, now, e) == OpenedFor(cfg, start, e) || OpenedFor(cfg, now, e) == None
    requires Written(cfg, start, now, e, hashed).Some?
    ensures ReusesHold(cfg, start, now, e, hashed)
  {
    if OpenedFor(cfg, now, e) == OpenedFor(cfg, start, e) {
      UnchangedHolds(cfg, start, now, e, hashed);
    } else {
      forall i | 0 <= i < |e.chunkHashes| ensures e.chunkHashes[i] !in Reusable(cfg, start, e, hashed) {
        NothingReused(Reusable(cfg, start, e, hashed), ServerChunks(cfg, e), e.chunkHashes, i);
      }
    }
  }

  // ---------------------------------------------------------------------------------------
  // One place at a time
  // ---------------------------------------------------------------------------------------

  /** What a file entry does to this place, if it does anything: the node it leaves, or none. */
  function FileTouch(cfg: Config, e: FileEntry, out: FileOutcome, at: Components): Option<Option<Node>> {
    match out
    case FilePulled(_, bytes, nodeTime, _, _) =>
      if Local(cfg, e.path) == at then Some(Some(LocalFile(bytes, nodeTime)))
      else if Tmp(cfg, e.path) == at then Some(None)
      else None
    case FileFailed(leftover) => if Tmp(cfg, e.path) == at then Some(leftover) else None
    case _ => None
  }

  function LinkTouch(cfg: Config, e: LinkEntry, out: LinkOutcome, at: Components): Option<Option<Node>> {
    if Local(cfg, e.path) != at then None
    else match out
      case LinkSkipped => None
      case LinkFailed(removed) => if removed then Some(None) else None
      case LinkMade(_, _) => Some(Some(LocalLink(e.target)))
  }

  // The last touch decides.

  function FilesTouch(cfg: Config, items: seq<FileEntry>, outs: seq<FileOutcome>, at: Components): Option<Option<Node>>
    requires |items| == |outs|
  {
    if items == [] then None
    else
      var n := |items| - 1;
      var last := FileTouch(cfg, items[n], outs[n], at);
      if last.Some? then last else FilesTouch(cfg, items[..n], outs[..n], at)
  }

  function LinksTouch(cfg: Config, items: seq<LinkEntry>, outs: seq<LinkOutcome>, at: Components): Option<Option<Node>>
    requires |items| == |outs|
  {
    if items == [] then None
    else
      var n := |items| - 1;
      var last := LinkTouch(cfg, items[n], outs[n], at);
      if last.Some? then last else LinksTouch(cfg, items[..n], outs[..n], at)
  }

  function Touched(touch: Option<Option<Node>>, node: Option<Node>): Option<Node> {
    if touch.Some? then touch.value else node
  }

  /** A deletion was carried out here. */
  ghost predicate DeletedAt(cfg: Config, items: seq<string>, outs: seq<DeleteOutcome>, at: Components)
    requires |items| == |outs|
  {
    exists i :: 0 <= i < |items| && outs[i].Deleted? && Local(cfg, items[i]) == at
  }

  /** A deletion was carried out here and found something. */
  predicate RemovesAt(cfg: Config, st: PullState, items: seq<string>, outs: seq<DeleteOutcome>, at: Components, i: nat)
    requires i < |items| == |outs|
  {
    outs[i].Deleted? && Local(cfg, items[i]) == at && Exists(cfg, ApplyFileDeletes(cfg, st, items[..i], outs[..i]).nodes, at)
  }

  ghost predicate GoneAt(cfg: Config, st: PullState, items: seq<string>, outs: seq<DeleteOutcome>, at: Components)
    requires |items| == |outs|
  {
    exists i :: 0 <= i < |items| && RemovesAt(cfg, st, items, outs, at, i)
  }

  lemma {:induction false} FilesNodeAt(cfg: Config, st: PullState, items: seq<FileEntry>, outs: seq<FileOutcome>, at: Components)
    requires |items| == |outs|
    ensures Get(ApplyFiles(cfg, st, items, outs).nodes, at) == Touched(FilesTouch(cfg, items, outs, at), Get(st.nodes, at))
  {
    if items != [] {
      var n := |items| - 1;
      FilesNodeAt(cfg, st, items[..n], outs[..n], at);
      TmpPathDiffers(Local(cfg, items[n].path));
    }
  }

  lemma {:induction false} FileDeletesNodeAt(cfg: Config, st: PullState, items: seq<string>, outs: seq<DeleteOutcome>, at: Components)
    requires |items| == |outs|
    ensures Get(ApplyFileDeletes(cfg, st, items, outs).nodes, at) == if GoneAt(cfg, st, items, outs, at) then None else Get(st.nodes, at)
  {
    if items != [] {
      var n := |items| - 1;
      FileDeletesNodeAt(cfg, st, items[..n], outs[..n], at);
      GoneAtLast(cfg, st, items, outs, at);
    }
  }

  lemma {:induction false} GoneAtLast(cfg: Config, st: PullState, items: seq<string>, outs: seq<DeleteOutcome>, at: Components)
    requires |items| == |outs| > 0
    ensures var n := |items| - 1;
            GoneAt(cfg, st, items, outs, at) <==> GoneAt(cfg, st, items[..n], outs[..n], at) || RemovesAt(cfg, st, items, outs, at, n)
  {
    var n := |items| - 1;
    forall i | 0 <= i < n ensures RemovesAt(cfg, st, items[..n], outs[..n], at, i) <==> RemovesAt(cfg, st, items, outs, at, i) {
      assert items[..n][..i] == items[..i] && outs[..n][..i] == outs[..i];
    }
    if GoneAt(cfg, st, items[..n], outs[..n], at) {
      var i :| 0 <= i < n && RemovesAt(cfg, st, items[..n], outs[..n], at, i);
      assert RemovesAt(cfg, st, items, outs, at, i);
    }
    if GoneAt(cfg, st, items, outs, at) {
      var i :| 0 <= i < |items| && RemovesAt(cfg, st, items, outs, at, i);
      assert i < n ==> RemovesAt(cfg, st, items[..n], outs[..n], at, i);
    }
  }

  lemma {:induction false} DeletedAtLast(cfg: Config, items: seq<string>, outs: seq<DeleteOutcome>, at: Components)
    requires |items| == |outs| > 0
    ensures var n := |items| - 1;
            DeletedAt(cfg, items, outs, at) <==>
            DeletedAt(cfg, items[..n], outs[..n], at) || (outs[n].Deleted? && Local(cfg, items[n]) == at)
  {
    var n := |items| - 1;
    if DeletedAt(cfg, items[..n], outs[..n], at) {
      var i :| 0 <= i < n && outs[..n][i].Deleted? && Local(cfg, items[..n][i]) == at;
      assert outs[i].Deleted? && Local(cfg, items[i]) == at;
    }
    if DeletedAt(cfg, items, outs, at) {
      var i :| 0 <= i < |items| && outs[i].Deleted? && Local(cfg, items[i]) == at;
      assert i < n ==> outs[..n][i].Deleted? && Local(cfg, items[..n][i]) == at;
    }
  }

  lemma {:induction false} LinksNodeAt(cfg: Config, st: PullState, items: seq<LinkEntry>, outs: seq<LinkOutcome>, at: Components)
    requires |items| == |outs|
    ensures Get(ApplyLinks(cfg, st, items, outs).nodes, at) == Touched(LinksTouch(cfg, items, outs, at), Get(st.nodes, at))
  {
    if items != [] {
      LinksNodeAt(cfg, st, items[..|items| - 1], outs[..|items| - 1], at);
    }
  }

  lemma {:induction false} LinkDeletesNodeAt(cfg: Config, st: PullState, items: seq<string>, outs: seq<DeleteOutcome>, at: Components)
    requires |items| == |outs|
    ensures Get(ApplyLinkDeletes(cfg, st, items, outs).nodes, at) == if DeletedAt(cfg, items, outs, at) then None else Get(st.nodes, at)
  {
    if items != [] {
      var n := |items| - 1;
      LinkDeletesNodeAt(cfg, st, items[..n], outs[..n], at);
      DeletedAtLast(cfg, items, outs, at);
    }
  }

  /** The four phases at one place. */
  ghost function NodeAfter(cfg: Config, st: PullState, diff: Diff, trace: Trace, at: Components): Option<Node>
    requires Fits(cfg, diff, trace)
  {
    var filed := Touched(FilesTouch(cfg, diff.Files(), trace.files, at), Get(st.nodes, at));
    var left := if GoneAt(cfg, AfterFiles(cfg, st, diff, trace), FilesDeletedHere(cfg, diff), trace.fileDeletes, at) then None else filed;
    var linked := Touched(LinksTouch(cfg, diff.Links(), trace.links, at), left);
    if DeletedAt(cfg, LinksDeletedHere(cfg, diff), trace.linkDeletes, at) then None else linked
  }

  /** What any pull, with whatever failures, makes of any place on disk. */
  lemma {:induction false} NodeIs(cfg: Config, st: PullState, diff: Diff, trace: Trace, at: Components)
    requires Fits(cfg, diff, trace)
    ensures Get(After(cfg, st, diff, trace).nodes, at) == NodeAfter(cfg, st, diff, trace, at)
  {
    FilesNodeAt(cfg, st, diff.Files(), trace.files, at);
    FileDeletesNodeAt(cfg, AfterFiles(cfg, st, diff, trace), FilesDeletedHere(cfg, diff), trace.fileDeletes, at);
    LinksNodeAt(cfg, AfterFileDeletes(cfg, st, diff, trace), diff.Links(), trace.links, at);
    LinkDeletesNodeAt(cfg, AfterLinks(cfg, st, diff, trace), LinksDeletedHere(cfg, diff), trace.linkDeletes, at);
  }

  // ---------------------------------------------------------------------------------------
  // One record at a time
  // ---------------------------------------------------------------------------------------

  function FilePaths(items: seq<FileEntry>): (paths: seq<string>)
    ensures |paths| == |items| && forall i :: 0 <= i < |items| ==> paths[i] == items[i].path
  {
    seq(|items|, i requires 0 <= i < |items| => items[i].path)
  }

  function LinkPaths(items: seq<LinkEntry>): (paths: seq<string>)
    ensures |paths| == |items| && forall i :: 0 <= i < |items| ==> paths[i] == items[i].path
  {
    seq(|items|, i requires 0 <= i < |items| => items[i].path)
  }

  /** Position of a path in a list, or -1. */
  function IndexOf(paths: seq<string>, path: string): (at: int)
    ensures at != -1 <==> path in paths
    ensures at != -1 ==> 0 <= at < |paths| && paths[at] == path
  {
    if paths == [] then -1
    else if paths[|paths| - 1] == path then |paths| - 1
    else
      var n := |paths| - 1;
      assert path in paths <==> path in paths[..n] || path == paths[n];
      IndexOf(paths[..n], path)
  }

  /** Where a path stands in a list without repetition. */
  ghost predicate OnlyAt(paths: seq<string>, path: string, at: int) {
    forall i :: 0 <= i < |paths| ==> (paths[i] == path <==> i == at)
  }

  lemma {:induction false} IndexIsOnly(paths: seq<string>, path: string)
    requires Distinct(paths)
    ensures OnlyAt(paths, path, IndexOf(paths, path))
  {
  }

  lemma {:induction false} FilesRecordAt(cfg: Config, st: PullState, items: seq<FileEntry>, outs: seq<FileOutcome>, path: string, at: int)
    requires |items| == |outs| && OnlyAt(FilePaths(items), path, at)
    ensures Get(ApplyFiles(cfg, st, items, outs).records, path) ==
            if 0 <= at < |items| && outs[at].FilePulled? && outs[at].recorded then Some(FileRecord(items[at], outs[at].bytes, outs[at].recordTime))
            else Get(st.records, path)
  {
    if items != [] {
      var n := |items| - 1;
      assert FilePaths(items)[n] == path <==> n == at;
      assert FilePaths(items[..n]) == FilePaths(items)[..n];
      FilesRecordAt(cfg, st, items[..n], outs[..n], path, at);
    }
  }

  lemma {:induction false} LinksRecordAt(cfg: Config, st: PullState, items: seq<LinkEntry>, outs: seq<LinkOutcome>, path: string, at: int)
    requires |items| == |outs| && OnlyAt(LinkPaths(items), path, at)
    ensures Get(ApplyLinks(cfg, st, items, outs).records, path) ==
            if 0 <= at < |items| && outs[at].LinkMade? && outs[at].recorded then Some(LinkRecord(items[at], outs[at].recordTime))
            else Get(st.records, path)
  {
    if items != [] {
      var n := |items| - 1;
      assert LinkPaths(items)[n] == path <==> n == at;
      assert LinkPaths(items[..n]) == LinkPaths(items)[..n];
      LinksRecordAt(cfg, st, items[..n], outs[..n], path, at);
    }
  }

  lemma {:induction false} DeletesRecordAt(cfg: Config, st: PullState, items: seq<string>, outs: seq<DeleteOutcome>, path: string, at: int)
    requires |items| == |outs| && OnlyAt(items, path, at)
    ensures var record := if 0 <= at < |items| && outs[at].Deleted? && outs[at].recordDropped then None else Get(st.records, path);
            Get(ApplyFileDeletes(cfg, st, items, outs).records, path) == record &&
            Get(ApplyLinkDeletes(cfg, st, items, outs).records, path) == record
  {
    if items != [] {
      var n := |items| - 1;
      assert items[n] == path <==> n == at;
      DeletesRecordAt(cfg, st, items[..n], outs[..n], path, at);
    }
  }

  /** The four phases on one record. */
  function RecordAfter(cfg: Config, record: Option<FileSyncMeta>, diff: Diff, trace: Trace, path: string): Option<FileSyncMeta>
    requires Fits(cfg, diff, trace)
  {
    var f := IndexOf(FilePaths(diff.Files()), path);
    var d := IndexOf(FilesDeletedHere(cfg, diff), path);
    var l := IndexOf(LinkPaths(diff.Links()), path);
    var u := IndexOf(LinksDeletedHere(cfg, diff), path);
    var r1 := if f != -1 && trace.files[f].FilePulled? && trace.files[f].recorded
              then Some(FileSyncMeta(path, ContentHash(trace.files[f].bytes), |trace.files[f].bytes|, trace.files[f].recordTime, Synced)) else record;
    var r2 := if d != -1 && trace.fileDeletes[d].Deleted? && trace.fileDeletes[d].recordDropped then None else r1;
    var r3 := if l != -1 && trace.links[l].LinkMade? && trace.links[l].recorded
              then Some(FileSyncMeta(path, diff.Links()[l].hash, 0, trace.links[l].recordTime, Synced)) else r2;
    if u != -1 && trace.linkDeletes[u].Deleted? && trace.linkDeletes[u].recordDropped then None else r3
  }

  /** Nothing is listed twice. */
  ghost predicate ListsOnce(cfg: Config, diff: Diff) {
    Distinct(FilePaths(diff.Files())) && Distinct(LinkPaths(diff.Links())) && Distinct(diff.filesDeleted) && Distinct(diff.linksDeleted)
  }

  /** What any pull makes of the record of any path; local collisions do not matter to it. */
  lemma {:induction false} RecordIs(cfg: Config, st: PullState, diff: Diff, trace: Trace, path: string)
    requires Fits(cfg, diff, trace) && ListsOnce(cfg, diff)
    ensures Get(After(cfg, st, diff, trace).records, path) == RecordAfter(cfg, Get(st.records, path), diff, trace, path)
  {
    IndexIsOnly(FilePaths(diff.Files()), path);
    IndexIsOnly(LinkPaths(diff.Links()), path);
    IndexIsOnly(FilesDeletedHere(cfg, diff), path);
    IndexIsOnly(LinksDeletedHere(cfg, diff), path);
    FilesRecordAt(cfg, st, diff.Files(), trace.files, path, IndexOf(FilePaths(diff.Files()), path));
    DeletesRecordAt(cfg, AfterFiles(cfg, st, diff, trace), FilesDeletedHere(cfg, diff), trace.fileDeletes, path,
                    IndexOf(FilesDeletedHere(cfg, diff), path));
    LinksRecordAt(cfg, AfterFileDeletes(cfg, st, diff, trace), diff.Links(), trace.links, path, IndexOf(LinkPaths(diff.Links()), path));
    DeletesRecordAt(cfg, AfterLinks(cfg, st, diff, trace), LinksDeletedHere(cfg, diff), trace.linkDeletes, path,
                    IndexOf(LinksDeletedHere(cfg, diff), path));
  }

  // ---------------------------------------------------------------------------------------
  // Nothing failed
  // ---------------------------------------------------------------------------------------

  predicate FileOk(out: FileOutcome) { out.FileSkipped? || out.FilePulled? }

  /** `files_failed` only grows, and stays put exactly when nothing fails. */
  lemma {:induction false} FilesFailed(cfg: Config, st: PullState, items: seq<FileEntry>, outs: seq<FileOutcome>)
    requires |items| == |outs|
    ensures ApplyFiles(cfg, st, items, outs).tally.failed >= st.tally.failed
    ensures ApplyFiles(cfg, st, items, outs).tally.failed == st.tally.failed <==> forall i :: 0 <= i < |outs| ==> FileOk(outs[i])
  {
    if items != [] {
      var n := |items| - 1;
      FilesFailed(cfg, st, items[..n], outs[..n]);
      assert outs == outs[..n] + [outs[n]];
      assert (forall i :: 0 <= i < |outs| ==> FileOk(outs[i])) <==> FileOk(outs[n]) && forall i :: 0 <= i < n ==> FileOk(outs[..n][i]);
    }
  }

  lemma {:induction false} FileDeletesFailed(cfg: Config, st: PullState, items: seq<string>, outs: seq<DeleteOutcome>)
    requires |items| == |outs|
    ensures ApplyFileDeletes(cfg, st, items, outs).tally.failed >= st.tally.failed
    ensures ApplyFileDeletes(cfg, st, items, outs).tally.failed == st.tally.failed <==> forall i :: 0 <= i < |outs| ==> !outs[i].DeleteFailed?
  {
    if items != [] {
      var n := |items| - 1;
      FileDeletesFailed(cfg, st, items[..n], outs[..n]);
      assert outs == outs[..n] + [outs[n]];
      assert (forall i :: 0 <= i < |outs| ==> !outs[i].DeleteFailed?) <==> !outs[n].DeleteFailed? && forall i :: 0 <= i < n ==> !outs[..n][i].DeleteFailed?;
    }
  }

  lemma {:induction false} LinksFailed(cfg: Config, st: PullState, items: seq<LinkEntry>, outs: seq<LinkOutcome>)
    requires |items| == |outs|
    ensures ApplyLinks(cfg, st, items, outs).tally.failed >= st.tally.failed
    ensures ApplyLinks(cfg, st, items, outs).tally.failed == st.tally.failed <==> forall i :: 0 <= i < |outs| ==> !outs[i].LinkFailed?
  {
    if items != [] {
      var n := |items| - 1;
      LinksFailed(cfg, st, items[..n], outs[..n]);
      assert outs == outs[..n] + [outs[n]];
      assert (forall i :: 0 <= i < |outs| ==> !outs[i].LinkFailed?) <==> !outs[n].LinkFailed? && forall i :: 0 <= i < n ==> !outs[..n][i].LinkFailed?;
    }
  }

  lemma {:induction false} LinkDeletesFailed(cfg: Config, st: PullState, items: seq<string>, outs: seq<DeleteOutcome>)
    requires |items| == |outs|
    ensures ApplyLinkDeletes(cfg, st, items, outs).tally.failed >= st.tally.failed
    ensures ApplyLinkDeletes(cfg, st, items, outs).tally.failed == st.tally.failed <==> forall i :: 0 <= i < |outs| ==> !outs[i].DeleteFailed?
  {
    if items != [] {
      var n := |items| - 1;
      LinkDeletesFailed(cfg, st, items[..n], outs[..n]);
      assert outs == outs[..n] + [outs[n]];
      assert (forall i :: 0 <= i < |outs| ==> !outs[i].DeleteFailed?) <==> !outs[n].DeleteFailed? && forall i :: 0 <= i < n ==> !outs[..n][i].DeleteFailed?;
    }
  }

  ghost predicate NothingFailed(trace: Trace) {
    (forall i :: 0 <= i < |trace.files| ==> FileOk(trace.files[i])) &&
    (forall i :: 0 <= i < |trace.fileDeletes| ==> !trace.fileDeletes[i].DeleteFailed?) &&
    (forall i :: 0 <= i < |trace.links| ==> !trace.links[i].LinkFailed?) &&
    (forall i :: 0 <= i < |trace.linkDeletes| ==> !trace.linkDeletes[i].DeleteFailed?)
  }

  lemma {:induction false} FailedCountsFailures(cfg: Config, st: PullState, diff: Diff, trace: Trace)
    requires Fits(cfg, diff, trace)
    ensures After(cfg, st, diff, trace).tally.failed == st.tally.failed <==> NothingFailed(trace)
  {
    FilesFailed(cfg, st, diff.Files(), trace.files);
    FileDeletesFailed(cfg, AfterFiles(cfg, st, diff, trace), FilesDeletedHere(cfg, diff), trace.fileDeletes);
    LinksFailed(cfg, AfterFileDeletes(cfg, st, diff, trace), diff.Links(), trace.links);
    LinkDeletesFailed(cfg, AfterLinks(cfg, st, diff, trace), LinksDeletedHere(cfg, diff), trace.linkDeletes);
  }

  // ---------------------------------------------------------------------------------------
  // The remote side
  // ---------------------------------------------------------------------------------------

  datatype RemoteNode = RemoteFile(chunks: seq<Digest>) | RemoteLink(hash: Digest, target: string)

  /** The whole server: the diff request names no base. */
  type Snapshot = map<string, RemoteNode>

  predicate IsFile(snap: Snapshot, path: string) {
    path in snap && snap[path].RemoteFile?
  }

  predicate IsLink(snap: Snapshot, path: string) {
    path in snap && snap[path].RemoteLink?
  }

  /** Every path of the set once. */
  ghost predicate Lists(paths: seq<string>, s: set<string>) {
    Distinct(paths) && forall p :: p in paths <==> p in s
  }

  /** `/sync/diff` from `before` to `now`; whether an entry counts as added or as modified makes no difference. */
  ghost predicate HonestDiff(before: Snapshot, now: Snapshot, diff: Diff) {
    Lists(FilePaths(diff.Files()), set p | p in now && IsFile(now, p) && Get(before, p) != Get(now, p)) &&
    Lists(LinkPaths(diff.Links()), set p | p in now && IsLink(now, p) && Get(before, p) != Get(now, p)) &&
    Lists(diff.filesDeleted, set p | p in before && IsFile(before, p) && !IsFile(now, p)) &&
    Lists(diff.linksDeleted, set p | p in before && IsLink(before, p) && !IsLink(now, p)) &&
    (forall i :: 0 <= i < |diff.Files()| ==> Get(now, diff.Files()[i].path) == Some(RemoteFile(diff.Files()[i].chunkHashes))) &&
    (forall i :: 0 <= i < |diff.Links()| ==> Get(now, diff.Links()[i].path) == Some(RemoteLink(diff.Links()[i].hash, diff.Links()[i].target)))
  }

  /** Paths this relationship looks after. */
  predicate Tracked(cfg: Config, path: string) {
    Canonical(path, cfg.remoteBase) && !Excluded(cfg, path)
  }

  /** What the local node of a tracked path should be; nothing is said of files the filter rejects. */
  predicate MirrorsAt(cfg: Config, snap: Snapshot, node: Option<Node>, path: string) {
    if IsLink(snap, path) then
      node == Some(LocalLink(snap[path].target))
    else if !Passes(cfg, path) then
      true
    else if IsFile(snap, path) then
      node.Some? && node.value.LocalFile? && node.value.bytes == ContentOf(cfg.blob.chunkHashPrefix, snap[path].chunks)
    else
      node == None
  }

  /** The local node of the path is what the snapshot shows. */
  predicate MirrorsPath(cfg: Config, snap: Snapshot, st: PullState, path: string) {
    MirrorsAt(cfg, snap, Get(st.nodes, Local(cfg, path)), path)
  }

  /** A pull, from one snapshot of the server to the next. */
  ghost predicate Sound(cfg: Config, st: PullState, before: Snapshot, now: Snapshot, diff: Diff, trace: Trace) {
    ValidTrace(cfg, st, diff, trace) && HonestDiff(before, now, diff)
  }

  ghost predicate NoneLandsAt(cfg: Config, paths: seq<string>, path: string) {
    forall i :: 0 <= i < |paths| && paths[i] != path ==> Local(cfg, paths[i]) != Local(cfg, path)
  }

  /** No symlink and no deletion of another path concerns the local file of this one. */
  ghost predicate LinksAndDeletesKeepOff(cfg: Config, diff: Diff, path: string) {
    NoneLandsAt(cfg, LinkPaths(diff.Links()), path) && NoneLandsAt(cfg, diff.filesDeleted, path) && NoneLandsAt(cfg, diff.linksDeleted, path)
  }

  /** No other path of the diff, foreign ones included, has the local file of this one. */
  ghost predicate Alone(cfg: Config, diff: Diff, path: string) {
    NoneLandsAt(cfg, FilePaths(diff.Files()), path) && LinksAndDeletesKeepOff(cfg, diff, path)
  }

  // ---------------------------------------------------------------------------------------
  // The other phases, where nobody else comes along
  // ---------------------------------------------------------------------------------------

  lemma {:induction false} OwnDeletion(cfg: Config, items: seq<string>, outs: seq<DeleteOutcome>, path: string)
    requires |items| == |outs| && Distinct(items) && NoneLandsAt(cfg, items, path)
    ensures var i := IndexOf(items, path);
            DeletedAt(cfg, items, outs, Local(cfg, path)) <==> i != -1 && outs[i].Deleted?
  {
    IndexIsOnly(items, path);
  }

  /** The file deletion of the path itself, the only one that concerns its local file. */
  lemma {:induction false} OwnFileDeletion(cfg: Config, st: PullState, items: seq<string>, outs: seq<DeleteOutcome>, path: string) returns (found: bool)
    requires |items| == |outs| && Distinct(items) && NoneLandsAt(cfg, items, path)
    ensures var i := IndexOf(items, path);
            GoneAt(cfg, st, items, outs, Local(cfg, path)) <==> i != -1 && outs[i].Deleted? && found
    ensures IsLocalFile(Get(st.nodes, Local(cfg, path))) ==> found
  {
    var at, i := Local(cfg, path), IndexOf(items, path);
    IndexIsOnly(items, path);
    found := true;
    if i != -1 {
      found := Exists(cfg, ApplyFileDeletes(cfg, st, items[..i], outs[..i]).nodes, at);
      assert outs[i].Deleted? && found ==> RemovesAt(cfg, st, items, outs, at, i);
      forall j | 0 <= j < i ensures !RemovesAt(cfg, st, items[..i], outs[..i], at, j) {
        assert items[j] != path;
      }
      FileDeletesNodeAt(cfg, st, items[..i], outs[..i], at);
    }
  }

  predicate IsLocalFile(node: Option<Node>) { node.Some? && node.value.LocalFile? }

  lemma {:induction false} OwnLink(cfg: Config, items: seq<LinkEntry>, outs: seq<LinkOutcome>, path: string, at: int)
    requires |items| == |outs| && OnlyAt(LinkPaths(items), path, at) && NoneLandsAt(cfg, LinkPaths(items), path)
    ensures LinksTouch(cfg, items, outs, Local(cfg, path)) ==
            if 0 <= at < |items| then LinkTouch(cfg, items[at], outs[at], Local(cfg, path)) else None
  {
    if items != [] {
      var n := |items| - 1;
      assert LinkPaths(items)[n] == path <==> n == at;
      assert LinkPaths(items[..n]) == LinkPaths(items)[..n];
      OwnLink(cfg, items[..n], outs[..n], path, at);
    }
  }

  /** The node after the file phase, and from there the own outcomes of the path. */
  function OwnPhases(cfg: Config, filed: Option<Node>, found: bool, diff: Diff, trace: Trace, path: string): Option<Node>
    requires |trace.fileDeletes| == |FilesDeletedHere(cfg, diff)| && |trace.links| == |diff.Links()| && |trace.linkDeletes| == |LinksDeletedHere(cfg, diff)|
  {
    var d := IndexOf(FilesDeletedHere(cfg, diff), path);
    var l := IndexOf(LinkPaths(diff.Links()), path);
    var u := IndexOf(LinksDeletedHere(cfg, diff), path);
    var left := if d != -1 && trace.fileDeletes[d].Deleted? && found then None else filed;
    var linked := if l != -1 then Touched(LinkTouch(cfg, diff.Links()[l], trace.links[l], Local(cfg, path)), left) else left;
    if u != -1 && trace.linkDeletes[u].Deleted? then None else linked
  }

  lemma {:induction false} OwnNodeIs(cfg: Config, before: Snapshot, now: Snapshot, st: PullState, diff: Diff, trace: Trace, path: string) returns (found: bool)
    requires Sound(cfg, st, before, now, diff, trace) && LinksAndDeletesKeepOff(cfg, diff, path)
    ensures var filed := Touched(FilesTouch(cfg, diff.Files(), trace.files, Local(cfg, path)), Get(st.nodes, Local(cfg, path)));
            Get(After(cfg, st, diff, trace).nodes, Local(cfg, path)) == OwnPhases(cfg, filed, found, diff, trace, path) && (IsLocalFile(filed) ==> found)
  {
    NodeIs(cfg, st, diff, trace, Local(cfg, path));
    FilesNodeAt(cfg, st, diff.Files(), trace.files, Local(cfg, path));
    found := OwnFileDeletion(cfg, AfterFiles(cfg, st, diff, trace), FilesDeletedHere(cfg, diff), trace.fileDeletes, path);
    OwnDeletion(cfg, LinksDeletedHere(cfg, diff), trace.linkDeletes, path);
    IndexIsOnly(LinkPaths(diff.Links()), path);
    OwnLink(cfg, diff.Links(), trace.links, path, IndexOf(LinkPaths(diff.Links()), path));
  }

  // ---------------------------------------------------------------------------------------
  // The mirror, whatever fails
  // ---------------------------------------------------------------------------------------

  /** The file phase writes to this place only for this path: it is nobody's temporary name. */
  ghost predicate NobodysTmp(cfg: Config, items: seq<FileEntry>, path: string) {
    forall i :: 0 <= i < |items| ==> Tmp(cfg, items[i].path) != Local(cfg, path)
  }

  lemma {:induction false} OwnFile(cfg: Config, items: seq<FileEntry>, outs: seq<FileOutcome>, path: string, at: int)
    requires |items| == |outs| && OnlyAt(FilePaths(items), path, at) && NoneLandsAt(cfg, FilePaths(items), path) && NobodysTmp(cfg, items, path)
    ensures FilesTouch(cfg, items, outs, Local(cfg, path)) ==
            if 0 <= at < |items| then FileTouch(cfg, items[at], outs[at], Local(cfg, path)) else None
  {
    if items != [] {
      var n := |items| - 1;
      var paths := FilePaths(items);
      assert FilePaths(items[..n]) == paths[..n];
      assert paths[n] == path <==> n == at;
      assert paths[n] != path ==> FileTouch(cfg, items[n], outs[n], Local(cfg, path)) == None;
      OwnFile(cfg, items[..n], outs[..n], path, at);
    }
  }

  /** Nobody else leaves a file there, so if it is no symlink, the file comes out as its chunks say. */
  lemma {:induction false} OwnFileIsWhole(cfg: Config, st: PullState, diff: Diff, trace: Trace, path: string, f: nat)
    requires ValidTrace(cfg, st, diff, trace) && Distinct(FilePaths(diff.Files())) && f < |diff.Files()| && diff.Files()[f].path == path
    requires NoneLandsAt(cfg, FilePaths(diff.Files()), path) && trace.files[f].FilePulled?
    requires forall j :: 0 <= j < f && trace.files[j].FileFailed? ==> Tmp(cfg, diff.Files()[j].path) != Local(cfg, path)
    requires var node := Get(st.nodes, Local(cfg, path)); node.None? || node.value.LocalFile?
    ensures ReusesHold(cfg, st.nodes, TreeAt(cfg, st, diff.Files(), trace.files, f), diff.Files()[f], trace.files[f].hashed)
  {
    forall j | 0 <= j < f ensures !Leaves(cfg, diff.Files()[..f][j], trace.files[..f][j], Local(cfg, path)) {
      assert FilePaths(diff.Files())[j] != FilePaths(diff.Files())[f];
    }
    assert Way(st.nodes, cfg.links, Local(cfg, path), cfg.links.most) == {Local(cfg, path)};
    WholeIfWayIsClear(cfg, st, diff.Files(), trace.files, f);
  }

  /** Whether the chunks that an entry reuses are in their places when its turn comes. */
  predicate ReusesHoldAt(cfg: Config, st: PullState, diff: Diff, trace: Trace, i: nat)
    requires i < |diff.Files()| == |trace.files| && trace.files[i].FilePulled?
  {
    ReusesHold(cfg, st.nodes, TreeAt(cfg, st, diff.Files(), trace.files, i), diff.Files()[i], trace.files[i].hashed)
  }

  /**
   A pulled file has the content of its chunks if and only if what it reuses is in its place at its
   turn; and it is, unless an earlier entry has left a file on the way to the old file.
   */
  lemma {:induction false} PulledWholeIff(cfg: Config, st: PullState, diff: Diff, trace: Trace, i: nat)
    requires ValidTrace(cfg, st, diff, trace) && i < |diff.Files()| && trace.files[i].FilePulled?
    ensures trace.files[i].bytes == Content(cfg, diff.Files()[i]) <==> ReusesHoldAt(cfg, st, diff, trace, i)
    ensures WayIsClear(cfg, st.nodes, diff.Files(), trace.files, i) ==> ReusesHoldAt(cfg, st, diff, trace, i)
  {
    assert AsWritten(cfg, st, diff.Files(), trace.files, i);
    WrittenWholeIff(cfg, st.nodes, TreeAt(cfg, st, diff.Files(), trace.files, i), diff.Files()[i], trace.files[i].hashed);
    if WayIsClear(cfg, st.nodes, diff.Files(), trace.files, i) {
      WholeIfWayIsClear(cfg, st, diff.Files(), trace.files, i);
    }
  }

  /** A file that replaces a symlink reads through it; any other is alone with its old file. */
  predicate OwnReusesHold(cfg: Config, st: PullState, before: Snapshot, diff: Diff, trace: Trace, path: string)
    requires |trace.files| == |diff.Files()|
  {
    var f := IndexOf(FilePaths(diff.Files()), path);
    f != -1 && trace.files[f].FilePulled? && IsLink(before, path) ==> ReusesHoldAt(cfg, st, diff, trace, f)
  }

  /** The own outcomes of the path under which the new snapshot is mirrored there. */
  predicate GoesThrough(cfg: Config, before: Snapshot, now: Snapshot, diff: Diff, trace: Trace, path: string, reusesHold: bool)
    requires |trace.files| == |diff.Files()| && |trace.fileDeletes| == |FilesDeletedHere(cfg, diff)|
    requires |trace.links| == |diff.Links()| && |trace.linkDeletes| == |LinksDeletedHere(cfg, diff)|
  {
    var f := IndexOf(FilePaths(diff.Files()), path);
    var d := IndexOf(FilesDeletedHere(cfg, diff), path);
    var l := IndexOf(LinkPaths(diff.Links()), path);
    var u := IndexOf(LinksDeletedHere(cfg, diff), path);
    if Get(before, path) == Get(now, path) then true
    else if IsLink(now, path) then
      l != -1 && (trace.links[l].LinkMade? ||
                  (trace.links[l] == LinkFailed(false) && IsLink(before, path) && before[path].target == now[path].target))
    else if IsFile(now, path) then
      f != -1 &&
      if trace.files[f].FilePulled? then !(u != -1 && trace.linkDeletes[u].Deleted?) && reusesHold
      else IsFile(before, path) &&
           ContentOf(cfg.blob.chunkHashPrefix, before[path].chunks) == ContentOf(cfg.blob.chunkHashPrefix, now[path].chunks)
    else if IsFile(before, path) then d != -1 && trace.fileDeletes[d].Deleted?
    else u != -1 && trace.linkDeletes[u].Deleted?
  }

  /** Where a path is listed. */
  ghost predicate Placed(cfg: Config, before: Snapshot, now: Snapshot, diff: Diff, path: string) {
    var f := IndexOf(FilePaths(diff.Files()), path);
    var l := IndexOf(LinkPaths(diff.Links()), path);
    (f != -1 <==> IsFile(now, path) && Get(before, path) != Get(now, path)) &&
    (l != -1 <==> IsLink(now, path) && Get(before, path) != Get(now, path)) &&
    (IndexOf(FilesDeletedHere(cfg, diff), path) != -1 <==> cfg.deletesLocally && IsFile(before, path) && !IsFile(now, path)) &&
    (IndexOf(LinksDeletedHere(cfg, diff), path) != -1 <==> cfg.deletesLocally && IsLink(before, path) && !IsLink(now, path)) &&
    (f != -1 ==> now[path].chunks == diff.Files()[f].chunkHashes) &&
    (l != -1 ==> now[path].target == diff.Links()[l].target && now[path].hash == diff.Links()[l].hash)
  }

  lemma {:induction false} HonestlyPlaced(cfg: Config, before: Snapshot, now: Snapshot, diff: Diff, path: string)
    requires HonestDiff(before, now, diff)
    ensures Placed(cfg, before, now, diff, path)
  {
    assert path in FilePaths(diff.Files()) <==> IsFile(now, path) && Get(before, path) != Get(now, path);
    assert path in LinkPaths(diff.Links()) <==> IsLink(now, path) && Get(before, path) != Get(now, path);
    assert path in diff.filesDeleted <==> IsFile(before, path) && !IsFile(now, path);
    assert path in diff.linksDeleted <==> IsLink(before, path) && !IsLink(now, path);
  }

  /** From the node as the file phase leaves it. */
  lemma {:induction false} ThroughFrom(cfg: Config, before: Snapshot, now: Snapshot, node: Option<Node>, filed: Option<Node>, found: bool,
                                       diff: Diff, trace: Trace, path: string, reusesHold: bool)
    requires |trace.files| == |diff.Files()| && |trace.fileDeletes| == |FilesDeletedHere(cfg, diff)|
    requires |trace.links| == |diff.Links()| && |trace.linkDeletes| == |LinksDeletedHere(cfg, diff)|
    requires Placed(cfg, before, now, diff, path) && Passes(cfg, path) && MirrorsAt(cfg, before, node, path)
    requires var f := IndexOf(FilePaths(diff.Files()), path);
             if f != -1 && trace.files[f].FilePulled?
             then IsLocalFile(filed) && (filed.value.bytes == Content(cfg, diff.Files()[f]) <==> reusesHold)
             else filed == node
    requires IsLocalFile(filed) ==> found
    requires var l := IndexOf(LinkPaths(diff.Links()), path); l != -1 ==> !trace.links[l].LinkSkipped?
    ensures MirrorsAt(cfg, now, OwnPhases(cfg, filed, found, diff, trace, path), path) <==> GoesThrough(cfg, before, now, diff, trace, path, reusesHold)
  {
    if IsLink(now, path) {
    } else if IsFile(now, path) {
    } else if IsFile(before, path) {
    }
  }

  lemma {:induction false} OwnFileWholeIff(cfg: Config, st: PullState, before: Snapshot, diff: Diff, trace: Trace, path: string, f: nat)
    requires ValidTrace(cfg, st, diff, trace) && Distinct(FilePaths(diff.Files())) && Passes(cfg, path) && MirrorsPath(cfg, before, st, path)
    requires NoneLandsAt(cfg, FilePaths(diff.Files()), path) && NobodysTmp(cfg, diff.Files(), path)
    requires f == IndexOf(FilePaths(diff.Files()), path) && trace.files[f].FilePulled?
    ensures trace.files[f].bytes == Content(cfg, diff.Files()[f]) <==> OwnReusesHold(cfg, st, before, diff, trace, path)
  {
    PulledWholeIff(cfg, st, diff, trace, f);
    if !IsLink(before, path) {
      OwnFileIsWhole(cfg, st, diff, trace, path, f);
    }
  }

  /** The file phase at a path where nobody else comes along. */
  lemma {:induction false} FiledAlone(cfg: Config, node: Option<Node>, diff: Diff, trace: Trace, path: string)
    requires Fits(cfg, diff, trace) && Distinct(FilePaths(diff.Files()))
    requires NoneLandsAt(cfg, FilePaths(diff.Files()), path) && NobodysTmp(cfg, diff.Files(), path)
    ensures var f := IndexOf(FilePaths(diff.Files()), path);
            Touched(FilesTouch(cfg, diff.Files(), trace.files, Local(cfg, path)), node) ==
            if f != -1 && trace.files[f].FilePulled? then Some(LocalFile(trace.files[f].bytes, trace.files[f].nodeTime)) else node
  {
    IndexIsOnly(FilePaths(diff.Files()), path);
    OwnFile(cfg, diff.Files(), trace.files, path, IndexOf(FilePaths(diff.Files()), path));
  }

  /**
   A tracked path that was mirrored, that no other path of the diff lands on and that is nobody's
   temporary name: after any pull, whatever failed elsewhere or here, the new snapshot is mirrored
   there if and only if its own outcomes went through - and, for a file that replaces a symlink, if
   what it reuses of the file behind that symlink is still there.
   */
  lemma {:induction false} PathMirrorsIffThrough(cfg: Config, before: Snapshot, now: Snapshot, st: PullState, diff: Diff, trace: Trace, path: string)
    requires Sound(cfg, st, before, now, diff, trace) && Tracked(cfg, path) && Passes(cfg, path) && MirrorsPath(cfg, before, st, path)
    requires Alone(cfg, diff, path) && NobodysTmp(cfg, diff.Files(), path)
    ensures MirrorsPath(cfg, now, After(cfg, st, diff, trace), path) <==>
            GoesThrough(cfg, before, now, diff, trace, path, OwnReusesHold(cfg, st, before, diff, trace, path))
  {
    var filed := Touched(FilesTouch(cfg, diff.Files(), trace.files, Local(cfg, path)), Get(st.nodes, Local(cfg, path)));
    var found := OwnNodeIs(cfg, before, now, st, diff, trace, path);
    FiledAlone(cfg, Get(st.nodes, Local(cfg, path)), diff, trace, path);
    var f := IndexOf(FilePaths(diff.Files()), path);
    if f != -1 && trace.files[f].FilePulled? {
      OwnFileWholeIff(cfg, st, before, diff, trace, path, f);
    }
    HonestlyPlaced(cfg, before, now, diff, path);
    ThroughFrom(cfg, before, now, Get(st.nodes, Local(cfg, path)), filed, found, diff, trace, path, OwnReusesHold(cfg, st, before, diff, trace, path));
  }

  // ---------------------------------------------------------------------------------------
  // Records and files
  // ---------------------------------------------------------------------------------------

  /** No later entry touches the file, no symlink and no deletion concerns it, and it replaces no symlink that is yet to be deleted. */
  ghost predicate NothingLater(cfg: Config, before: Snapshot, diff: Diff, trace: Trace, i: nat)
    requires i < |diff.Files()| == |trace.files|
  {
    LinksAndDeletesKeepOff(cfg, diff, diff.Files()[i].path) && !(cfg.deletesLocally && IsLink(before, diff.Files()[i].path)) &&
    forall j :: i < j < |diff.Files()| ==> FileTouch(cfg, diff.Files()[j], trace.files[j], Local(cfg, diff.Files()[i].path)) == None
  }

  /** The record of a file pulled without error describes exactly the file on disk, if nothing later in the diff concerns that file. */
  lemma {:induction false} PulledFileIsRecorded(cfg: Config, before: Snapshot, now: Snapshot, st: PullState, diff: Diff, trace: Trace, i: nat)
    requires Sound(cfg, st, before, now, diff, trace) && i < |diff.Files()| && trace.files[i].FilePulled? && trace.files[i].recorded
    requires NothingLater(cfg, before, diff, trace, i)
    ensures var e := diff.Files()[i];
            var after := After(cfg, st, diff, trace);
            Get(after.nodes, Local(cfg, e.path)) == Some(LocalFile(trace.files[i].bytes, trace.files[i].nodeTime)) &&
            Get(after.records, e.path) ==
              Some(FileSyncMeta(e.path, ContentHash(trace.files[i].bytes), |trace.files[i].bytes|, trace.files[i].recordTime, Synced))
  {
    var path := diff.Files()[i].path;
    assert FilePaths(diff.Files())[i] == path;
    HonestlyPlaced(cfg, before, now, diff, path);
    IndexIsOnly(FilePaths(diff.Files()), path);
    var found := OwnNodeIs(cfg, before, now, st, diff, trace, path);
    LaterIsNone(cfg, diff.Files(), trace.files, Local(cfg, path), i);
    RecordIs(cfg, st, diff, trace, path);
  }

  lemma {:induction false} LaterIsNone(cfg: Config, items: seq<FileEntry>, outs: seq<FileOutcome>, at: Components, i: nat)
    requires |items| == |outs| && i < |items| && FileTouch(cfg, items[i], outs[i], at).Some?
    requires forall j :: i < j < |items| ==> FileTouch(cfg, items[j], outs[j], at) == None
    ensures FilesTouch(cfg, items, outs, at) == FileTouch(cfg, items[i], outs[i], at)
  {
    if i < |items| - 1 {
      LaterIsNone(cfg, items[..|items| - 1], outs[..|items| - 1], at, i);
    }
  }
}
