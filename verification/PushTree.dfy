/**
 What a push without failures leaves behind, said of the walked tree itself: of names, times,
 sizes and contents. A file that a root migration moves is followed from its old name to its
 new one.
 */
module PushTree {
  import opened Prelude
  import opened Chunks
  import opened Paths
  import opened Planning
  import opened Batching
  import opened Hierarchy
  import opened MetadataStore
  import opened Push
  import opened PushFacts
  import opened PushClean
  import opened PushResult
  import opened PushScans
  import opened PushAccounts
  import Pull
  import PullTerritory

  // ---------------------------------------------------------------------------------------
  // Every entry, whatever it is
  // ---------------------------------------------------------------------------------------

  /** The entry is a file whose last name the filter lets through. */
  predicate IsWantedFile(cfg: Config, e: Entry) {
    e.kind.Regular? && e.relative != [] && cfg.matchesFilter(e.relative[|e.relative| - 1])
  }

  /** The pull lets the same files through the same filter: it sees the same name. */
  lemma {:induction false} PullWantsWhatPushWants(cfg: Config, pullCfg: Pull.Config, e: Entry)
    requires e.kind.Regular? && e.relative != [] && AllComponents(e.relative) && e.relative[|e.relative| - 1] != ".."
    requires pullCfg.matchesFilter == cfg.matchesFilter && pullCfg.remoteBase == cfg.remoteBase
    ensures Pull.Passes(pullCfg, ComputeRemotePath(e.relative, cfg.remoteBase)) <==> IsWantedFile(cfg, e)
    ensures Marks(cfg, e) <==> IsWantedFile(cfg, e)
  {
    var n := |e.relative| - 1;
    assert e.relative == e.relative[..n] + [e.relative[n]];
    PullTerritory.FileNameIsLast(e.relative[..n], e.relative[n], cfg.remoteBase);
  }

  /** No operating system call failed where the scan needed it. */
  predicate WasExamined(cfg: Config, e: Entry) {
    !e.kind.NoMetadata? && (e.kind.Link? ==> e.kind.target.Some?) && (IsWantedFile(cfg, e) ==> e.kind.mtime.Some?)
  }

  /** A push ends well only if it could examine every entry, whatever names overlap. */
  lemma {:induction false} EveryEntryWasExamined(cfg: Config, st: PushState, walk: seq<Entry>, t: Trace, i: nat)
    requires CleanRun(cfg, st, walk, t) && i < |walk|
    ensures WasExamined(cfg, walk[i])
  {
    NothingUnreadable(cfg, st, walk, t, i);
  }

  /** A Lite scan takes the file for unchanged: its record is `Synced`, with its size and its time. */
  predicate LooksUnchanged(cfg: Config, stored: Option<FileSyncMeta>, size: nat, mtime: int) {
    cfg.mode == Lite && stored.Some? && stored.value.status == Synced && stored.value.size == size && stored.value.modifiedAt == mtime
  }

  /**
   A file ends with its own record - path, content hash, size as read, time as listed - and
   with its content on the server; unless a Lite scan took it for unchanged, in which case
   nothing is different. Where the record already named the content, the server is left alone.
   */
  lemma {:induction false} FileIsPushed(cfg: Config, st: PushState, walk: seq<Entry>, t: Trace, i: nat, q: string)
    requires CleanPush(cfg, st, walk, t) && i < |walk| && IsWantedFile(cfg, walk[i])
    requires q == ComputeRemotePath(walk[i].relative, cfg.remoteBase)
    ensures walk[i].kind.mtime.Some?
    ensures var stored, mtime, hashed := Get(st.store, q), walk[i].kind.mtime.value, walk[i].kind.hashed;
            var after := After(cfg, st, walk, t);
            if LooksUnchanged(cfg, stored, walk[i].kind.size, mtime) then
              Get(after.store, q) == stored && Get(after.remote, q) == Get(st.remote, q)
            else
              hashed.Some? &&
              Get(after.store, q) == Some(FileSyncMeta(q, hashed.value.hash, hashed.value.size, mtime, Synced)) &&
              Get(after.remote, q) ==
                if stored.Some? && stored.value.contentHash == hashed.value.hash then Get(st.remote, q)
                else Some(RFile(hashed.value.hash))
  {
    EveryEntryWasExamined(cfg, st, walk, t, i);
    MarkedIsFound(cfg, walk, i);
    WantedFileIsJudged(cfg, st.store, walk[i], q);
    if Judge(cfg, st.store, walk[i]).Prepare? {
      OwnResult(cfg, st, walk, t, q);
    }
    CleanPushIsDetermined(cfg, st, walk, t, q);
  }

  lemma {:induction false} WantedFileIsJudged(cfg: Config, store: View, e: Entry, q: string)
    requires IsWantedFile(cfg, e) && e.kind.mtime.Some? && q == ComputeRemotePath(e.relative, cfg.remoteBase)
    ensures var verdict := Judge(cfg, store, e);
            if LooksUnchanged(cfg, Get(store, q), e.kind.size, e.kind.mtime.value) then verdict.Skip?
            else verdict.Prepare? && verdict.request.path == q && verdict.request.stored == Get(store, q) &&
                 verdict.request.hashed == e.kind.hashed && verdict.request.mtime == e.kind.mtime.value &&
                 verdict.request.oldPath ==
                   if cfg.migration.Some? then OldRemotePath(cfg.localBase + e.relative, cfg.migration.value) else None
  {
  }

  /** A symlink ends with its identity hash on the server and on record, size zero; a Lite scan passes over one so recorded. */
  lemma {:induction false} LinkIsPushed(cfg: Config, st: PushState, walk: seq<Entry>, t: Trace, i: nat, q: string)
    requires CleanPush(cfg, st, walk, t) && i < |walk| && walk[i].kind.Link?
    requires q == ComputeRemotePath(walk[i].relative, cfg.remoteBase)
    ensures walk[i].kind.target.Some?
    ensures var stored, hash := Get(st.store, q), cfg.linkHash(q, walk[i].kind.target.value);
            var after := After(cfg, st, walk, t);
            if cfg.mode == Lite && stored.Some? && stored.value.status == Synced && stored.value.contentHash == hash then
              Get(after.store, q) == stored && Get(after.remote, q) == Get(st.remote, q)
            else
              Get(after.store, q) == Some(FileSyncMeta(q, hash, 0, walk[i].kind.linkTime, Synced)) &&
              Get(after.remote, q) == Some(RLink(hash))
  {
    EveryEntryWasExamined(cfg, st, walk, t, i);
    MarkedIsFound(cfg, walk, i);
    CleanPushIsDetermined(cfg, st, walk, t, q);
  }

  // ---------------------------------------------------------------------------------------
  // Every path that no entry bears
  // ---------------------------------------------------------------------------------------

  /** No symlink and no file that passes the filter has this remote name. */
  ghost predicate NotOnDisk(cfg: Config, walk: seq<Entry>, q: string) {
    forall i :: 0 <= i < |walk| && (walk[i].kind.Link? || IsWantedFile(cfg, walk[i])) ==>
      ComputeRemotePath(walk[i].relative, cfg.remoteBase) != q
  }

  /** Every entry lies strictly below the local base. */
  ghost predicate Inside(walk: seq<Entry>) {
    forall i :: 0 <= i < |walk| ==> walk[i].relative != []
  }

  lemma {:induction false} NotOnDiskIsNotFound(cfg: Config, walk: seq<Entry>, q: string)
    requires Inside(walk) && NotOnDisk(cfg, walk, q)
    ensures Find(cfg, walk, q).None?
  {
    if Find(cfg, walk, q).Some? {
      var i := FoundIsInWalk(cfg, walk, q);
    }
  }

  predicate BelowOldRemote(cfg: Config, q: string) {
    cfg.migration.Some? && IsUnderRemoteBase(q, cfg.migration.value.oldRemote)
  }

  ghost predicate BelowChild(cfg: Config, q: string) {
    exists root :: root in cfg.exclusions && IsPrefix(root, q)
  }

  /** The file on disk has no record, had this name before the migration, and the record and the server know its content there. */
  predicate CarriesOn(cfg: Config, st: PushState, e: Entry, q: string) {
    IsWantedFile(cfg, e) && ComputeRemotePath(e.relative, cfg.remoteBase) !in st.store &&
    ComputeRemotePath(e.relative, cfg.remoteBase) != q && cfg.migration.Some? &&
    OldRemotePath(cfg.localBase + e.relative, cfg.migration.value) == Some(q) &&
    e.kind.hashed.Some? && q in st.store && st.store[q].contentHash == e.kind.hashed.value.hash &&
    Get(st.remote, q) == Some(RFile(e.kind.hashed.value.hash))
  }

  lemma {:induction false} ExcludedIsBelowChild(cfg: Config, q: string)
    ensures IsExcludedByChild(q, cfg.exclusions) <==> BelowChild(cfg, q)
  {
    if i :| 0 <= i < |cfg.exclusions| && IsPrefix(cfg.exclusions[i], q) {
      assert cfg.exclusions[i] in cfg.exclusions;
    }
    if root :| root in cfg.exclusions && IsPrefix(root, q) {
      var i :| 0 <= i < |cfg.exclusions| && cfg.exclusions[i] == root;
    }
  }

  /** The verified move of this entry applies to that name. */
  predicate JudgedToMove(cfg: Config, st: PushState, e: Entry, q: string) {
    var verdict := Judge(cfg, st.store, e);
    verdict.Prepare? && verdict.request.oldPath == Some(q) && Match(verdict.request, Get(st.store, q), Get(st.remote, q))
  }

  lemma {:induction false} CarriesOnIffMoves(cfg: Config, st: PushState, e: Entry, q: string)
    requires e.relative != [] && WasExamined(cfg, e)
    ensures CarriesOn(cfg, st, e, q) <==> JudgedToMove(cfg, st, e, q)
  {
    if IsWantedFile(cfg, e) {
      WantedFileIsJudged(cfg, st.store, e, ComputeRemotePath(e.relative, cfg.remoteBase));
    }
  }

  lemma {:induction false} CarriedIffMovedAway(cfg: Config, st: PushState, walk: seq<Entry>, t: Trace, q: string)
    requires CleanRun(cfg, st, walk, t) && Inside(walk)
    ensures MovedAway(cfg, st.remote, st.store, walk, q) <==> exists i :: 0 <= i < |walk| && CarriesOn(cfg, st, walk[i], q)
  {
    forall i | 0 <= i < |walk| ensures CarriesOn(cfg, st, walk[i], q) <==> JudgedToMove(cfg, st, walk[i], q) {
      EveryEntryWasExamined(cfg, st, walk, t, i);
      CarriesOnIffMoves(cfg, st, walk[i], q);
    }
  }

  /**
   A path that nothing on disk bears. Below the old base of a migration its record goes, and its
   remote file only if a file on disk carries it on. Elsewhere both go if there is a record, the
   relationship deletes remotely and no child has the path; otherwise nothing is different.
   */
  lemma {:induction false} MissingPathIs(cfg: Config, st: PushState, walk: seq<Entry>, t: Trace, q: string)
    requires CleanPush(cfg, st, walk, t) && Inside(walk) && NotOnDisk(cfg, walk, q)
    ensures var after := After(cfg, st, walk, t);
            if BelowOldRemote(cfg, q) then
              q !in after.store &&
              (Answered(st, t) ==>
                Get(after.remote, q) == if exists i :: 0 <= i < |walk| && CarriesOn(cfg, st, walk[i], q) then None else Get(st.remote, q))
            else if q in st.store && cfg.deletesRemotely && !BelowChild(cfg, q) then
              q !in after.store && q !in after.remote
            else
              Get(after.store, q) == Get(st.store, q) && Get(after.remote, q) == Get(st.remote, q)
  {
    NotOnDiskIsNotFound(cfg, walk, q);
    CleanPushIsDetermined(cfg, st, walk, t, q);
    ExcludedIsBelowChild(cfg, q);
    CarriedIffMovedAway(cfg, st, walk, t, q);
    if i :| 0 <= i < |walk| && CarriesOn(cfg, st, walk[i], q) {
      OldRemotePathUnderOldBase(cfg.localBase + walk[i].relative, cfg.migration.value);
    }
  }

  // ---------------------------------------------------------------------------------------
  // A file that moves with the root
  // ---------------------------------------------------------------------------------------

  /** The verified move would apply from the start. */
  predicate MovesAtOnce(st: PushState, r: Request, from: string) {
    r.hashed.Some? && r.stored.None? && r.oldPath == Some(from) && from != r.path && from in st.store &&
    st.store[from].contentHash == r.hashed.value.hash && Get(st.remote, from) == Some(RFile(r.hashed.value.hash))
  }

  lemma {:induction false} LastIsMoved(cfg: Config, st: PushState, requests: seq<Request>, outs: seq<FileOut>, k: nat, from: string)
    requires |requests| == |outs| > 0 && Clean(Files(cfg, st, requests, outs)) && Fresh(st) && AllApart(requests)
    requires var n := |requests| - 1; MovesAtOnce(st, requests[n], from) && outs[n].sourceAnswered && Idle(st, k, requests[n].path)
    ensures Idle(Files(cfg, st, requests, outs), k, requests[|requests| - 1].path)
  {
    var n := |requests| - 1;
    var r := requests[n];
    var before := Files(cfg, st, requests[..n], outs[..n]);
    StepIsHandle(cfg, before, r, outs[n], r.path);
    forall i | 0 <= i < n ensures !Touches(requests[i], from) && requests[i].path != r.path {
      assert Apart(requests[i], r);
    }
    FilesOther(cfg, st, requests[..n], outs[..n], from);
    FilesIdle(cfg, st, requests[..n], outs[..n], k, r.path);
    FileStepIdle(cfg, before, r, outs[n], k, r.path);
  }

  lemma {:induction false} FilesIdleMoving(cfg: Config, st: PushState, requests: seq<Request>, outs: seq<FileOut>, j: nat, k: nat, from: string)
    requires |requests| == |outs| && Clean(Files(cfg, st, requests, outs)) && Fresh(st) && AllApart(requests) && j < |requests|
    requires MovesAtOnce(st, requests[j], from) && outs[j].sourceAnswered && Idle(st, k, requests[j].path)
    ensures Idle(Files(cfg, st, requests, outs), k, requests[j].path)
  {
    var n := |requests| - 1;
    if j == n {
      LastIsMoved(cfg, st, requests, outs, k, from);
    } else {
      FrontIsClean(cfg, st, requests, outs);
      assert Apart(requests[n], requests[j]);
      FilesIdleMoving(cfg, st, requests[..n], outs[..n], j, k, from);
      FileStepIdle(cfg, Files(cfg, st, requests[..n], outs[..n]), requests[n], outs[n], k, requests[j].path);
    }
  }

  /** The file has this name now, has no record there, and is carried on from that old one. */
  predicate Carried(cfg: Config, st: PushState, e: Entry, from: string, to: string) {
    CarriesOn(cfg, st, e, from) && to == ComputeRemotePath(e.relative, cfg.remoteBase)
  }

  lemma {:induction false} CarriedFileIsNotUploaded(cfg: Config, st: PushState, walk: seq<Entry>, t: Trace, i: nat, from: string, to: string)
    requires CleanPush(cfg, st, walk, t) && Answered(st, t) && i < |walk| && Carried(cfg, st, walk[i], from, to)
    ensures NoUploads(After(cfg, st, walk, t).ledger.ops, |st.ledger.ops|, to)
  {
    EveryEntryWasExamined(cfg, st, walk, t, i);
    MarkedIsFound(cfg, walk, i);
    WantedFileIsJudged(cfg, st.store, walk[i], to);
    var j := FoundRequest(cfg, st, walk, t, to);
    RequestIsNotUploaded(cfg, st, walk, t, j, from);
    RestIdle(cfg, st, walk, t, |st.ledger.ops|, to);
  }

  lemma {:induction false} RequestIsNotUploaded(cfg: Config, st: PushState, walk: seq<Entry>, t: Trace, j: nat, from: string)
    requires CleanPush(cfg, st, walk, t) && Answered(st, t) && j < |t.requests| && MovesAtOnce(AfterScan(cfg, st, walk), t.requests[j], from)
    ensures Idle(Files(cfg, AfterScan(cfg, st, walk), t.requests, t.fileOuts), |st.ledger.ops|, t.requests[j].path)
  {
    CleanPhases(cfg, st, walk, t);
    RequestsApart(cfg, st.store, walk, t.requests);
    assert AsksServer(st.store, t.requests[j]);
    FilesIdleMoving(cfg, AfterScan(cfg, st, walk), t.requests, t.fileOuts, j, |st.ledger.ops|, from);
  }

  lemma {:induction false} OldNameIsNotFound(cfg: Config, st: PushState, walk: seq<Entry>, i: nat, from: string, to: string)
    requires NonOverlap(cfg, st.store, walk) && i < |walk| && Carried(cfg, st, walk[i], from, to)
    ensures Find(cfg, walk, from).None?
  {
    assert LooksBack(cfg, st.store, walk[i]);
    if Find(cfg, walk, from).Some? {
      var j := FoundIsInWalk(cfg, walk, from);
    }
  }

  /**
   A file that is recorded and held under its old name with the content it has on disk: after
   the push it is under its new name, recorded with its present size and time; the old name is
   gone from the server and from the records; and no upload ever named it.
   */
  lemma {:induction false} CarriedFileIsMoved(cfg: Config, st: PushState, walk: seq<Entry>, t: Trace, i: nat, from: string, to: string)
    requires CleanPush(cfg, st, walk, t) && Answered(st, t) && i < |walk| && Carried(cfg, st, walk[i], from, to)
    ensures var after := After(cfg, st, walk, t);
            var hashed := walk[i].kind.hashed.value;
            Get(after.remote, to) == Some(RFile(hashed.hash)) && from !in after.remote && from !in after.store &&
            walk[i].kind.mtime.Some? &&
            Get(after.store, to) == Some(FileSyncMeta(to, hashed.hash, hashed.size, walk[i].kind.mtime.value, Synced)) &&
            NoUploads(after.ledger.ops, |st.ledger.ops|, to)
  {
    FileIsPushed(cfg, st, walk, t, i, to);
    CarriedFileIsNotUploaded(cfg, st, walk, t, i, from, to);
    OldNameIsNotFound(cfg, st, walk, i, from, to);
    CleanPushIsDetermined(cfg, st, walk, t, from);
    OldNameUnderOldBase(cfg, walk[i]);
    WantedFileIsJudged(cfg, st.store, walk[i], to);
    assert MovedAway(cfg, st.remote, st.store, walk, from);
  }

  /**
   Only the remote folder of a relationship is changed: a file recorded and held below the old
   one, unchanged on disk and new below the new one, is moved from the one to the other.
   */
  lemma {:induction false} RemoteFolderChangeMovesFile(
      cfg: Config, st: PushState, walk: seq<Entry>, t: Trace, i: nat, oldRemote: string, from: string, to: string)
    requires CleanPush(cfg, st, walk, t) && Answered(st, t) && i < |walk| && IsWantedFile(cfg, walk[i]) && walk[i].kind.hashed.Some?
    requires cfg.migration == Some(RootMove(oldRemote, cfg.remoteBase, cfg.localBase, cfg.localBase))
    requires from == ComputeRemotePath(walk[i].relative, oldRemote) && to == ComputeRemotePath(walk[i].relative, cfg.remoteBase)
    requires from != to && to !in st.store
    requires from in st.store && st.store[from].contentHash == walk[i].kind.hashed.value.hash
    requires Get(st.remote, from) == Some(RFile(walk[i].kind.hashed.value.hash))
    ensures var after := After(cfg, st, walk, t);
            Get(after.remote, to) == Get(st.remote, from) && from !in after.remote && from !in after.store && to in after.store &&
            NoUploads(after.ledger.ops, |st.ledger.ops|, to)
  {
    OldNameBelowOldRoot(walk[i].relative, cfg.migration.value);
    CarriedFileIsMoved(cfg, st, walk, t, i, from, to);
  }

  // ---------------------------------------------------------------------------------------
  // Nothing is asked for but what the tree calls for
  // ---------------------------------------------------------------------------------------

  /** A file handed over is a file on disk, as it was listed and read. */
  ghost predicate IsOnDisk(cfg: Config, walk: seq<Entry>, file: PendingPushFile) {
    exists i :: 0 <= i < |walk| && IsWantedFile(cfg, walk[i]) && walk[i].kind.hashed.Some? && walk[i].kind.mtime.Some? &&
      file == PendingPushFile(Join(walk[i].relative), ComputeRemotePath(walk[i].relative, cfg.remoteBase),
                              walk[i].kind.hashed.value.hash, walk[i].kind.hashed.value.size,
                              walk[i].kind.mtime.value, walk[i].kind.contentType)
  }

  /** A rename is from the old name of a file on disk to its name, where it has no record. */
  ghost predicate IsMove(cfg: Config, store: View, walk: seq<Entry>, from: string, to: string) {
    exists i :: 0 <= i < |walk| && IsWantedFile(cfg, walk[i]) && cfg.migration.Some? && from != to && to !in store &&
      OldRemotePath(cfg.localBase + walk[i].relative, cfg.migration.value) == Some(from) &&
      ComputeRemotePath(walk[i].relative, cfg.remoteBase) == to
  }

  ghost predicate IsLinkOnDisk(cfg: Config, walk: seq<Entry>, path: string) {
    exists i :: 0 <= i < |walk| && walk[i].kind.Link? && ComputeRemotePath(walk[i].relative, cfg.remoteBase) == path
  }

  ghost predicate IsCalledFor(cfg: Config, store: View, walk: seq<Entry>, op: Op) {
    match op
    case Upload(files) => forall k :: 0 <= k < |files| ==> IsOnDisk(cfg, walk, files[k])
    case Rename(from, to) => IsMove(cfg, store, walk, from, to)
    case PutLink(path) => IsLinkOnDisk(cfg, walk, path)
    case Delete(path) => cfg.deletesRemotely && NotOnDisk(cfg, walk, path) && !BelowOldRemote(cfg, path) && !BelowChild(cfg, path)
  }

  /** Every operation from the k-th on, and every file in the batch. */
  ghost predicate CalledFor(cfg: Config, store: View, walk: seq<Entry>, st: PushState, k: nat) {
    (forall i :: k <= i < |st.ledger.ops| ==> IsCalledFor(cfg, store, walk, st.ledger.ops[i])) &&
    (forall i :: 0 <= i < |st.batch| ==> IsOnDisk(cfg, walk, st.batch[i]))
  }

  /** The request of a file on disk. */
  ghost predicate IsRequested(cfg: Config, store: View, walk: seq<Entry>, r: Request) {
    (r.hashed.Some? ==> IsOnDisk(cfg, walk, Candidate(r))) &&
    (r.oldPath.Some? && r.stored.None? && r.oldPath.value != r.path ==> IsMove(cfg, store, walk, r.oldPath.value, r.path))
  }

  lemma {:induction false} SameCalledFor(cfg: Config, store: View, walk: seq<Entry>, before: PushState, after: PushState, k: nat)
    requires CalledFor(cfg, store, walk, before, k) && after.batch == before.batch && after.ledger.ops == before.ledger.ops
    ensures CalledFor(cfg, store, walk, after, k)
  {
  }

  lemma {:induction false} OneMoreCalledFor(cfg: Config, store: View, walk: seq<Entry>, before: PushState, after: PushState, op: Op, k: nat)
    requires CalledFor(cfg, store, walk, before, k) && IsCalledFor(cfg, store, walk, op)
    requires after.batch == before.batch && after.ledger.ops == before.ledger.ops + [op]
    ensures CalledFor(cfg, store, walk, after, k)
  {
  }

  lemma {:induction false} FlushCalledFor(cfg: Config, store: View, walk: seq<Entry>, st: PushState, out: FlushOut, k: nat)
    requires CalledFor(cfg, store, walk, st, k)
    ensures CalledFor(cfg, store, walk, Flush(st, out), k)
  {
    FlushOps(st, out);
  }

  lemma {:induction false} CompleteCalledFor(cfg: Config, store: View, walk: seq<Entry>, st: PushState, out: FlushOut, k: nat)
    requires CalledFor(cfg, store, walk, st, k)
    ensures CalledFor(cfg, store, walk, Complete(st, out), k)
  {
    FlushCalledFor(cfg, store, walk, st.(tally := Completed(st.tally)), out, k);
  }

  lemma {:induction false} EnqueueCalledFor(cfg: Config, store: View, walk: seq<Entry>, st: PushState, file: PendingPushFile, out: FileOut, k: nat)
    requires CalledFor(cfg, store, walk, st, k) && IsOnDisk(cfg, walk, file)
    ensures CalledFor(cfg, store, walk, Enqueue(cfg, st, file, out), k)
  {
    FlushCalledFor(cfg, store, walk, st, out.before, k);
    var ready := if FlushBefore(st.batch, file, cfg.blob) then Flush(st, out.before) else st;
    FlushCalledFor(cfg, store, walk, ready.(batch := ready.batch + [file]), out.now, k);
  }

  lemma {:induction false} MoveCalledFor(cfg: Config, store: View, walk: seq<Entry>, st: PushState, r: Request, end: MoveEnd, k: nat)
    requires CalledFor(cfg, store, walk, st, k) && r.hashed.Some? && r.oldPath.Some? && IsMove(cfg, store, walk, r.oldPath.value, r.path)
    ensures CalledFor(cfg, store, walk, MigratedFile(st, r, end), k)
  {
    OneMoreCalledFor(cfg, store, walk, st, MigratedFile(st, r, end), Rename(r.oldPath.value, r.path), k);
  }

  lemma {:induction false} RecordsCalledFor(cfg: Config, store: View, walk: seq<Entry>, st: PushState, r: Request, end: AdoptEnd, k: nat)
    requires CalledFor(cfg, store, walk, st, k) && r.hashed.Some?
    ensures r.stored.Some? ==> CalledFor(cfg, store, walk, HashSkipped(st, r), k)
    ensures r.oldPath.Some? ==> CalledFor(cfg, store, walk, AdoptedFile(st, r, end), k)
  {
    if r.stored.Some? {
      SameCalledFor(cfg, store, walk, st, HashSkipped(st, r), k);
    }
    if r.oldPath.Some? {
      SameCalledFor(cfg, store, walk, st, AdoptedFile(st, r, end), k);
    }
  }

  /** Only a file without a record is moved, and to another name. */
  lemma {:induction false} MovesWhat(remote: Remote, mem: View, r: Request, out: FileOut)
    requires r.hashed.Some? && Decide(remote, mem, r, out).Migrate?
    ensures r.oldPath.Some? && r.stored.None? && r.oldPath.value != r.path
  {
  }

  lemma {:induction false} HandleCalledFor(cfg: Config, store: View, walk: seq<Entry>, st: PushState, r: Request, out: FileOut, k: nat)
    requires CalledFor(cfg, store, walk, st, k) && r.hashed.Some? && IsRequested(cfg, store, walk, r)
    ensures CalledFor(cfg, store, walk, Handle(cfg, st, r, out), k)
  {
    match Decide(st.remote, st.mem, r, out)
    case Queue =>
      EnqueueCalledFor(cfg, store, walk, st, Candidate(r), out, k);
    case Migrate =>
      MovesWhat(st.remote, st.mem, r, out);
      MoveCalledFor(cfg, store, walk, st, r, out.move, k);
    case _ =>
      RecordsCalledFor(cfg, store, walk, st, r, out.adopt, k);
  }

  lemma {:induction false} FilesCalledFor(cfg: Config, store: View, walk: seq<Entry>, st: PushState, requests: seq<Request>, outs: seq<FileOut>, k: nat)
    requires |requests| == |outs| && CalledFor(cfg, store, walk, st, k)
    requires forall i :: 0 <= i < |requests| ==> IsRequested(cfg, store, walk, requests[i])
    ensures CalledFor(cfg, store, walk, Files(cfg, st, requests, outs), k)
  {
    if requests != [] {
      var n := |requests| - 1;
      var before := Files(cfg, st, requests[..n], outs[..n]);
      FilesCalledFor(cfg, store, walk, st, requests[..n], outs[..n], k);
      if !before.halted && requests[n].hashed.None? {
        CompleteCalledFor(cfg, store, walk, before.(tally := Failed(before.tally)), outs[n].progress, k);
      } else if !before.halted {
        HandleCalledFor(cfg, store, walk, before, requests[n], outs[n], k);
        CompleteCalledFor(cfg, store, walk, Handle(cfg, before, requests[n], outs[n]), outs[n].progress, k);
      }
    }
  }

  lemma {:induction false} LinksCalledFor(cfg: Config, store: View, walk: seq<Entry>, st: PushState, tasks: seq<LinkTask>, outs: seq<LinkOut>, k: nat)
    requires |tasks| == |outs| && CalledFor(cfg, store, walk, st, k)
    requires forall i :: 0 <= i < |tasks| ==> IsLinkOnDisk(cfg, walk, tasks[i].path)
    ensures CalledFor(cfg, store, walk, Links(cfg, st, tasks, outs), k)
  {
    if tasks != [] {
      var n := |tasks| - 1;
      var before := Links(cfg, st, tasks[..n], outs[..n]);
      LinksCalledFor(cfg, store, walk, st, tasks[..n], outs[..n], k);
      var after := LinkStep(cfg, before, tasks[n], outs[n]);
      if after.ledger.ops == before.ledger.ops {
        SameCalledFor(cfg, store, walk, before, after, k);
      } else {
        OneMoreCalledFor(cfg, store, walk, before, after, PutLink(tasks[n].path), k);
      }
    }
  }

  lemma {:induction false} DeletionsCalledFor(cfg: Config, store: View, walk: seq<Entry>, st: PushState, paths: seq<string>, outs: seq<DeleteOut>, k: nat)
    requires |paths| == |outs| && CalledFor(cfg, store, walk, st, k)
    requires forall i :: 0 <= i < |paths| ==> IsCalledFor(cfg, store, walk, Delete(paths[i]))
    ensures CalledFor(cfg, store, walk, Deletions(st, paths, outs), k)
  {
    if paths != [] {
      var n := |paths| - 1;
      var before := Deletions(st, paths[..n], outs[..n]);
      DeletionsCalledFor(cfg, store, walk, st, paths[..n], outs[..n], k);
      if !before.halted {
        OneMoreCalledFor(cfg, store, walk, before, DeleteStep(before, paths[n], outs[n]), Delete(paths[n]), k);
      }
    }
  }

  lemma {:induction false} RequestIsRequested(cfg: Config, store: View, e: Entry, walk: seq<Entry>, i: nat)
    requires i < |walk| && walk[i] == e && e.relative != [] && Judge(cfg, store, e).Prepare?
    ensures IsRequested(cfg, store, walk, Judge(cfg, store, e).request)
  {
    var r := Judge(cfg, store, e).request;
    if r.hashed.Some? {
      assert Candidate(r) == PendingPushFile(Join(walk[i].relative), ComputeRemotePath(walk[i].relative, cfg.remoteBase),
                                             walk[i].kind.hashed.value.hash, walk[i].kind.hashed.value.size,
                                             walk[i].kind.mtime.value, walk[i].kind.contentType);
    }
  }

  lemma {:induction false} DeletionIsCalledFor(cfg: Config, store: View, mem: View, walk: seq<Entry>, path: string)
    requires Inside(walk) && path in DeletionCandidates(cfg, mem, ScanAll(cfg, store, walk).seen)
    ensures IsCalledFor(cfg, store, walk, Delete(path))
  {
    ExcludedIsBelowChild(cfg, path);
    forall i | 0 <= i < |walk| && (walk[i].kind.Link? || IsWantedFile(cfg, walk[i]))
      ensures ComputeRemotePath(walk[i].relative, cfg.remoteBase) != path
    {
      MarkedIsSeen(cfg, store, walk, i);
    }
  }

  lemma {:induction false} MarkedIsSeen(cfg: Config, store: View, walk: seq<Entry>, i: nat)
    requires i < |walk| && Marks(cfg, walk[i])
    ensures RemotePath(cfg, walk[i]) in ScanAll(cfg, store, walk).seen
  {
    if i < |walk| - 1 {
      MarkedIsSeen(cfg, store, walk[..|walk| - 1], i);
    }
  }

  /**
   Whatever goes wrong, and however far the push gets, it asks the server for nothing but this:
   to take files on disk, with the hash, size and time they have there; to move a file without
   a record from its old name to its own; to take symlinks on disk; and, where the relationship
   deletes remotely, to delete what is neither on disk nor below the old base of a migration
   nor below a child's root.
   */
  lemma {:induction false} OpsAreCalledFor(cfg: Config, st: PushState, walk: seq<Entry>, t: Trace, i: nat)
    requires ValidTrace(cfg, st, walk, t) && ProperWalk(walk) && Inside(walk)
    requires |st.ledger.ops| <= i < |After(cfg, st, walk, t).ledger.ops|
    ensures IsCalledFor(cfg, st.store, walk, After(cfg, st, walk, t).ledger.ops[i])
  {
    var k := |st.ledger.ops|;
    var start := AfterScan(cfg, st, walk);
    forall j | 0 <= j < |t.requests| ensures IsRequested(cfg, st.store, walk, t.requests[j]) {
      var e := RequestEntry(cfg, st, walk, t, j);
      RequestIsRequested(cfg, st.store, walk[e], walk, e);
    }
    FilesCalledFor(cfg, st.store, walk, start, t.requests, t.fileOuts, k);
    FlushCalledFor(cfg, st.store, walk, Files(cfg, start, t.requests, t.fileOuts), t.lastFlush, k);
    forall j | 0 <= j < |t.links| ensures IsLinkOnDisk(cfg, walk, t.links[j].path) {
      var e := TaskEntry(cfg, st, walk, t, j);
    }
    LinksCalledFor(cfg, st.store, walk, AfterFiles(cfg, st, walk, t), t.links, t.linkOuts, k);
    EndCalledFor(cfg, st, walk, t, k);
  }

  lemma {:induction false} EndCalledFor(cfg: Config, st: PushState, walk: seq<Entry>, t: Trace, k: nat)
    requires ValidTrace(cfg, st, walk, t) && Inside(walk)
    requires CalledFor(cfg, st.store, walk, AfterLinks(cfg, st, walk, t), k)
    ensures CalledFor(cfg, st.store, walk, After(cfg, st, walk, t), k)
  {
    var cleaned := AfterCleanup(cfg, st, walk, t);
    if cleaned.halted {
      HaltedDeletesNothing(cleaned, t.deletions, t.deleteOuts);
    } else {
      forall j | 0 <= j < |t.deletions| ensures IsCalledFor(cfg, st.store, walk, Delete(t.deletions[j])) {
        assert t.deletions[j] in Elements(t.deletions);
        DeletionIsCalledFor(cfg, st.store, cleaned.mem, walk, t.deletions[j]);
      }
      DeletionsCalledFor(cfg, st.store, walk, cleaned, t.deletions, t.deleteOuts, k);
    }
  }

  lemma {:induction false} HaltedDeletesNothing(st: PushState, paths: seq<string>, outs: seq<DeleteOut>)
    requires |paths| == |outs| && st.halted
    ensures Deletions(st, paths, outs) == st
  {
    if paths != [] {
      HaltedDeletesNothing(st, paths[..|paths| - 1], outs[..|paths| - 1]);
    }
  }

  /** Some operation from the k-th on puts this symlink. */
  ghost predicate IsPut(ops: seq<Op>, k: nat, path: string) {
    exists i :: k <= i < |ops| && ops[i] == PutLink(path)
  }

  lemma {:induction false} OneMoreLink(cfg: Config, st: PushState, task: LinkTask, out: LinkOut, k: nat, path: string)
    requires !LinkStep(cfg, st, task, out).halted && k <= |st.ledger.ops|
    ensures var after := LinkStep(cfg, st, task, out);
            var present := cfg.mode.Lite? && out.inspected && Get(st.remote, task.path) == Some(RLink(task.hash));
            !st.halted && k <= |after.ledger.ops| &&
            (IsPut(after.ledger.ops, k, path) <==> IsPut(st.ledger.ops, k, path) || (path == task.path && !present)) &&
            (path != task.path ==> Get(after.remote, path) == Get(st.remote, path))
  {
    var before, after := st.ledger.ops, LinkStep(cfg, st, task, out).ledger.ops;
    if after != before {
      assert after == before + [PutLink(task.path)];
      assert after[|before|] == PutLink(task.path);
      forall i | k <= i < |before| ensures after[i] == before[i] {
      }
    }
  }

  /** Up to here no symlink task of that path, and the place on the server is as it was; or one, which decides. */
  lemma {:induction false} LinksPut(cfg: Config, st: PushState, tasks: seq<LinkTask>, outs: seq<LinkOut>, path: string)
    requires |tasks| == |outs| && DistinctLinks(tasks) && !Links(cfg, st, tasks, outs).halted
    ensures PutAsDue(cfg, st, Links(cfg, st, tasks, outs), tasks, outs, path)
  {
    if tasks != [] {
      var n := |tasks| - 1;
      var before := Links(cfg, st, tasks[..n], outs[..n]);
      assert !before.halted;
      LinksPut(cfg, st, tasks[..n], outs[..n], path);
      OneMorePut(cfg, st, before, tasks, outs, path);
    }
  }

  ghost predicate PutAsDue(cfg: Config, st: PushState, after: PushState, tasks: seq<LinkTask>, outs: seq<LinkOut>, path: string)
    requires |tasks| == |outs|
  {
    !st.halted && |st.ledger.ops| <= |after.ledger.ops| &&
    ((forall i :: 0 <= i < |tasks| ==> tasks[i].path != path) ==>
      Get(after.remote, path) == Get(st.remote, path) && !IsPut(after.ledger.ops, |st.ledger.ops|, path)) &&
    (forall i :: 0 <= i < |tasks| && tasks[i].path == path ==>
      (IsPut(after.ledger.ops, |st.ledger.ops|, path) <==>
       !(cfg.mode.Lite? && outs[i].inspected && Get(st.remote, path) == Some(RLink(tasks[i].hash)))))
  }

  lemma {:induction false} OneMorePut(cfg: Config, st: PushState, before: PushState, tasks: seq<LinkTask>, outs: seq<LinkOut>, path: string)
    requires |tasks| == |outs| > 0 && DistinctLinks(tasks)
    requires var n := |tasks| - 1;
             PutAsDue(cfg, st, before, tasks[..n], outs[..n], path) && !LinkStep(cfg, before, tasks[n], outs[n]).halted
    ensures var n := |tasks| - 1; PutAsDue(cfg, st, LinkStep(cfg, before, tasks[n], outs[n]), tasks, outs, path)
  {
    var n := |tasks| - 1;
    OneMoreLink(cfg, before, tasks[n], outs[n], |st.ledger.ops|, path);
    forall i | 0 <= i < n ensures tasks[..n][i] == tasks[i] && outs[..n][i] == outs[i] && tasks[i].path != tasks[n].path {
    }
  }

  /**
   A symlink that has work is put in every run that ends Ok, unless a Lite scan inspected the
   server and found it there as it is; in a Full scan always.
   */
  lemma {:induction false} LinkIsPutIff(cfg: Config, st: PushState, walk: seq<Entry>, t: Trace, i: nat)
    requires ValidTrace(cfg, st, walk, t) && ProperWalk(walk) && i < |t.links| && !AfterLinks(cfg, st, walk, t).halted
    ensures var mid := AfterFiles(cfg, st, walk, t);
            IsPut(AfterLinks(cfg, st, walk, t).ledger.ops, |mid.ledger.ops|, t.links[i].path) <==>
            !(cfg.mode == Lite && t.linkOuts[i].inspected && Get(mid.remote, t.links[i].path) == Some(RLink(t.links[i].hash)))
  {
    TaskPathsDistinct(cfg, st, walk, t);
    LinksPut(cfg, AfterFiles(cfg, st, walk, t), t.links, t.linkOuts, t.links[i].path);
  }

  // ---------------------------------------------------------------------------------------
  // The counters of a push without failures
  // ---------------------------------------------------------------------------------------

  /** Sizes of the files handed over. */
  function BytesAskedFor(ops: seq<Op>): nat {
    if ops == [] then 0
    else BytesAskedFor(ops[..|ops| - 1]) + if ops[|ops| - 1].Upload? then TotalBytes(ops[|ops| - 1].files) else 0
  }

  lemma {:induction false} OneMoreBytes(ops: seq<Op>, op: Op)
    ensures BytesAskedFor(ops + [op]) == BytesAskedFor(ops) + if op.Upload? then TotalBytes(op.files) else 0
  {
    assert (ops + [op])[..|ops|] == ops;
  }

  ghost predicate SameBytes(before: PushState, after: PushState) {
    after.tally.bytes - BytesAskedFor(after.ledger.ops) == before.tally.bytes - BytesAskedFor(before.ledger.ops)
  }

  lemma {:induction false} HandOverBytes(st: PushState, files: seq<PendingPushFile>, out: FlushOut)
    requires Clean(HandOver(st, files, out))
    ensures HandOver(st, files, out).tally.bytes == st.tally.bytes + TotalBytes(files)
  {
    var tried := Arrive(st, files, out.delivery);
    ArriveShape(st, files, out.delivery);
    if out.Isolated? {
      assert Clean(Isolate(tried, files, out.fates));
      IsolateAt(tried, files, out.fates, "");
    }
  }

  lemma {:induction false} FlushBytes(st: PushState, out: FlushOut)
    requires Clean(Flush(st, out))
    ensures SameBytes(st, Flush(st, out))
  {
    FlushOps(st, out);
    if st.batch != [] {
      HandOverBytes(Issue(st.(batch := []), Upload(st.batch)), st.batch, out);
      OneMoreBytes(st.ledger.ops, Upload(st.batch));
    }
  }

  lemma {:induction false} EnqueueBytes(cfg: Config, st: PushState, file: PendingPushFile, out: FileOut)
    requires Clean(Enqueue(cfg, st, file, out))
    ensures SameBytes(st, Enqueue(cfg, st, file, out))
  {
    var ready := if FlushBefore(st.batch, file, cfg.blob) then Flush(st, out.before) else st;
    var queued := ready.(batch := ready.batch + [file]);
    if FlushNow(queued.batch, cfg.blob) {
      FlushBytes(queued, out.now);
      FlushAt(queued, out.now, "");
    }
    if FlushBefore(st.batch, file, cfg.blob) {
      FlushBytes(st, out.before);
    }
  }

  lemma {:induction false} HandleBytes(cfg: Config, st: PushState, r: Request, out: FileOut)
    requires r.hashed.Some? && Clean(Handle(cfg, st, r, out))
    ensures SameBytes(st, Handle(cfg, st, r, out))
  {
    match Decide(st.remote, st.mem, r, out)
    case Queue => EnqueueBytes(cfg, st, Candidate(r), out);
    case Migrate => MovedBytes(st, r, out.move);
    case Adopt => AdoptedBytes(st, r, out.adopt);
    case HashSkip =>
  }

  lemma {:induction false} MovedBytes(st: PushState, r: Request, end: MoveEnd)
    requires r.hashed.Some? && r.oldPath.Some?
    ensures SameBytes(st, MigratedFile(st, r, end))
  {
    OneMoreBytes(st.ledger.ops, Rename(r.oldPath.value, r.path));
    assert MigratedFile(st, r, end).ledger.ops == st.ledger.ops + [Rename(r.oldPath.value, r.path)];
  }

  lemma {:induction false} AdoptedBytes(st: PushState, r: Request, end: AdoptEnd)
    requires r.hashed.Some? && r.oldPath.Some?
    ensures SameBytes(st, AdoptedFile(st, r, end))
  {
    assert AdoptedFile(st, r, end).ledger == st.ledger;
  }

  lemma {:induction false} FilesBytes(cfg: Config, st: PushState, requests: seq<Request>, outs: seq<FileOut>)
    requires |requests| == |outs| && Clean(Files(cfg, st, requests, outs))
    ensures SameBytes(st, Files(cfg, st, requests, outs))
  {
    if requests != [] {
      var n := |requests| - 1;
      var before := Files(cfg, st, requests[..n], outs[..n]);
      StepIsHandle(cfg, before, requests[n], outs[n], "");
      FilesBytes(cfg, st, requests[..n], outs[..n]);
      HandleBytes(cfg, before, requests[n], outs[n]);
      var handled := Handle(cfg, before, requests[n], outs[n]);
      var completed := handled.(tally := Completed(handled.tally));
      if completed.tally.processed % 100 == 0 {
        FlushBytes(completed, outs[n].progress);
      }
    }
  }

  lemma {:induction false} LinksBytes(cfg: Config, st: PushState, tasks: seq<LinkTask>, outs: seq<LinkOut>)
    requires |tasks| == |outs|
    ensures SameBytes(st, Links(cfg, st, tasks, outs))
  {
    if tasks != [] {
      var n := |tasks| - 1;
      LinksBytes(cfg, st, tasks[..n], outs[..n]);
      OneMoreBytes(Links(cfg, st, tasks[..n], outs[..n]).ledger.ops, PutLink(tasks[n].path));
    }
  }

  lemma {:induction false} DeletionsBytes(st: PushState, paths: seq<string>, outs: seq<DeleteOut>)
    requires |paths| == |outs|
    ensures SameBytes(st, Deletions(st, paths, outs))
  {
    if paths != [] {
      var n := |paths| - 1;
      DeletionsBytes(st, paths[..n], outs[..n]);
      OneMoreBytes(Deletions(st, paths[..n], outs[..n]).ledger.ops, Delete(paths[n]));
    }
  }

  /**
   After a push without failures the counters are what was asked of the server: one pushed for
   every file handed over, rename and symlink, their bytes, and one deleted for every deletion;
   every other file and symlink was skipped.
   */
  lemma {:induction false} CleanCounters(cfg: Config, st: PushState, walk: seq<Entry>, t: Trace)
    requires CleanRun(cfg, st, walk, t)
    ensures var after := After(cfg, st, walk, t);
            after.tally.failed == after.tally.errors == 0 && after.tally.processed == |walk| &&
            after.tally.pushed == AskedFor(after.ledger.ops) - AskedFor(st.ledger.ops) &&
            after.tally.skipped == |walk| - IgnoredCount(walk) - after.tally.pushed &&
            after.tally.deleted == DeletesAskedFor(after.ledger.ops) - DeletesAskedFor(st.ledger.ops) &&
            after.tally.bytes == BytesAskedFor(after.ledger.ops) - BytesAskedFor(st.ledger.ops)
  {
    EveryEntryCountedOnce(cfg, st, walk, t);
    CountersAccountForOps(cfg, st, walk, t);
    NothingFailedOnTheWay(cfg, st, walk, t);
    BytesOfPhases(cfg, st, walk, t);
  }

  lemma {:induction false} NothingFailedOnTheWay(cfg: Config, st: PushState, walk: seq<Entry>, t: Trace)
    requires CleanRun(cfg, st, walk, t)
    ensures UnexaminedCount(cfg, walk) == 0 && UnreadCount(t.requests) == 0
    ensures |t.deletions| == After(cfg, st, walk, t).tally.deleted && AfterCleanup(cfg, st, walk, t).tally.failed == 0
  {
    EveryEntryCountedOnce(cfg, st, walk, t);
    DeletionsCount(AfterCleanup(cfg, st, walk, t), t.deletions, t.deleteOuts);
    BeforeDeletions(cfg, st, walk, t);
    CleanPhases(cfg, st, walk, t);
    FilesKeepClean(cfg, AfterScan(cfg, st, walk), t.requests, t.fileOuts);
    ScanTally(cfg, st.store, walk);
    EveryFileWasRead(cfg, AfterScan(cfg, st, walk), t.requests, t.fileOuts);
  }

  lemma {:induction false} EveryFileWasRead(cfg: Config, st: PushState, requests: seq<Request>, outs: seq<FileOut>)
    requires |requests| == |outs| && Clean(Files(cfg, st, requests, outs))
    ensures UnreadCount(requests) == 0
  {
    if requests != [] {
      var n := |requests| - 1;
      StepIsHandle(cfg, Files(cfg, st, requests[..n], outs[..n]), requests[n], outs[n], "");
      EveryFileWasRead(cfg, st, requests[..n], outs[..n]);
    }
  }

  lemma {:induction false} BytesOfPhases(cfg: Config, st: PushState, walk: seq<Entry>, t: Trace)
    requires CleanRun(cfg, st, walk, t)
    ensures var after := After(cfg, st, walk, t);
            after.tally.bytes == BytesAskedFor(after.ledger.ops) - BytesAskedFor(st.ledger.ops)
  {
    var files := Files(cfg, AfterScan(cfg, st, walk), t.requests, t.fileOuts);
    CleanPhases(cfg, st, walk, t);
    ScanTally(cfg, st.store, walk);
    FilesBytes(cfg, AfterScan(cfg, st, walk), t.requests, t.fileOuts);
    PendingClean(Flush(files, t.lastFlush), t.pendingStored);
    FlushBytes(files, t.lastFlush);
    LinksBytes(cfg, AfterFiles(cfg, st, walk, t), t.links, t.linkOuts);
    DeletionsBytes(AfterCleanup(cfg, st, walk, t), t.deletions, t.deleteOuts);
  }
}
