/**
 Comparing runs: a Lite scan leads where a Full scan leads, a push that ended well leaves
 nothing to do, and what a pull brought is not pushed back.
 */
module PushScans {
  import opened Prelude
  import opened Chunks
  import opened Paths
  import opened Planning
  import opened Batching
  import opened Hierarchy
  import opened MetadataStore
  import opened Push
  import opened PushFacts
  import opened PushClean
  import opened PushResult
  import Pull
  import opened Assemble

  // ---------------------------------------------------------------------------------------
  // Lite and Full
  // ---------------------------------------------------------------------------------------

  function In(cfg: Config, mode: ScanMode): Config { cfg.(mode := mode) }

  /** Files do not change between being listed and being read. */
  ghost predicate Steady(walk: seq<Entry>) {
    forall i :: 0 <= i < |walk| && walk[i].kind.Regular? && walk[i].kind.hashed.Some? ==>
      walk[i].kind.hashed.value.size == walk[i].kind.size
  }

  /** A `Synced` record of the same size and time names the same content. */
  ghost predicate RecordsTell(cfg: Config, store: View, walk: seq<Entry>) {
    forall i :: 0 <= i < |walk| && walk[i].kind.Regular? && walk[i].kind.mtime.Some? && walk[i].kind.hashed.Some? ==>
      var stored := Get(store, RemotePath(cfg, walk[i]));
      LiteSkips(Lite, stored, walk[i].kind.size, walk[i].kind.mtime.value) ==>
        stored.value.contentHash == walk[i].kind.hashed.value.hash
  }

  /** A `Synced` record of a symlink matches the symlink on the server. */
  ghost predicate LinksTell(cfg: Config, remote: Remote, store: View, walk: seq<Entry>) {
    forall i :: 0 <= i < |walk| && walk[i].kind.Link? && walk[i].kind.target.Some? ==>
      var q := RemotePath(cfg, walk[i]);
      var hash := cfg.linkHash(q, walk[i].kind.target.value);
      LiteSkipsLink(Lite, Get(store, q), hash) ==> Get(remote, q) == Some(RLink(hash)) && store[q].size == 0
  }

  /** Equal in everything but the modification time. */
  predicate SameButTime(a: Option<FileSyncMeta>, b: Option<FileSyncMeta>) {
    (a.None? <==> b.None?) &&
    (a.Some? ==> a.value.path == b.value.path && a.value.contentHash == b.value.contentHash &&
                 a.value.size == b.value.size && a.value.status == b.value.status)
  }

  lemma {:induction false} FindIgnoresMode(cfg: Config, mode: ScanMode, walk: seq<Entry>, q: string)
    ensures Find(In(cfg, mode), walk, q) == Find(cfg, walk, q)
  {
    if walk != [] {
      FindIgnoresMode(cfg, mode, walk[..|walk| - 1], q);
    }
  }

  lemma {:induction false} MovedAwayIgnoresMode(cfg: Config, remote: Remote, store: View, walk: seq<Entry>, q: string)
    ensures MovedAway(In(cfg, Lite), remote, store, walk, q) <==> MovedAway(In(cfg, Full), remote, store, walk, q)
  {
    forall i | 0 <= i < |walk|
      ensures Judge(In(cfg, Lite), store, walk[i]).Prepare? ==> Judge(In(cfg, Full), store, walk[i]) == Judge(In(cfg, Lite), store, walk[i])
      ensures Judge(In(cfg, Full), store, walk[i]).Prepare? && Judge(In(cfg, Full), store, walk[i]).request.stored.None? ==>
                Judge(In(cfg, Full), store, walk[i]) == Judge(In(cfg, Lite), store, walk[i])
    {
    }
  }

  /** At a scanned path both scans come to the same. */
  lemma {:induction false} FoundSame(cfg: Config, remote: Remote, store: View, walk: seq<Entry>, q: string)
    requires KeysArePaths(store) && Steady(walk) && RecordsTell(cfg, store, walk) && LinksTell(cfg, remote, store, walk)
    requires Find(cfg, walk, q).Some?
    requires Find(cfg, walk, q).value.kind.Regular? ==> Find(cfg, walk, q).value.kind.hashed.Some?
    ensures FinalRemote(In(cfg, Lite), remote, store, walk, q) == FinalRemote(In(cfg, Full), remote, store, walk, q)
    ensures SameButTime(FinalRecord(In(cfg, Lite), store, walk, q), FinalRecord(In(cfg, Full), store, walk, q))
  {
    FindIgnoresMode(cfg, Lite, walk, q);
    FindIgnoresMode(cfg, Full, walk, q);
    var i := FoundIsInWalk(cfg, walk, q);
    if walk[i].kind.Regular? {
      FileJudgedSame(cfg, store, walk, i);
    } else {
      LinkJudgedSame(cfg, remote, store, walk, i);
    }
  }

  lemma {:induction false} FileJudgedSame(cfg: Config, store: View, walk: seq<Entry>, i: nat)
    requires i < |walk| && walk[i].kind.Regular? && walk[i].kind.hashed.Some? && Marks(cfg, walk[i])
    requires KeysArePaths(store) && Steady(walk) && RecordsTell(cfg, store, walk)
    ensures var lite := Judge(In(cfg, Lite), store, walk[i]);
            var full := Judge(In(cfg, Full), store, walk[i]);
            lite == full ||
            (lite.Skip? && full.Prepare? && HashSame(full.request) && Get(store, RemotePath(cfg, walk[i])) == Some(MetaOf(full.request)))
  {
  }

  lemma {:induction false} LinkJudgedSame(cfg: Config, remote: Remote, store: View, walk: seq<Entry>, i: nat)
    requires i < |walk| && walk[i].kind.Link? && KeysArePaths(store) && LinksTell(cfg, remote, store, walk)
    ensures var lite := Judge(In(cfg, Lite), store, walk[i]);
            var full := Judge(In(cfg, Full), store, walk[i]);
            var q := RemotePath(cfg, walk[i]);
            lite == full ||
            (lite.Skip? && full.MakeLink? && Get(remote, q) == Some(RLink(full.task.hash)) &&
             SameButTime(Get(store, q), Some(LinkMeta(full.task))))
  {
  }

  lemma {:induction false} UnfoundSame(cfg: Config, remote: Remote, store: View, walk: seq<Entry>, q: string)
    requires Find(cfg, walk, q).None?
    ensures FinalRemote(In(cfg, Lite), remote, store, walk, q) == FinalRemote(In(cfg, Full), remote, store, walk, q)
    ensures FinalRecord(In(cfg, Lite), store, walk, q) == FinalRecord(In(cfg, Full), store, walk, q)
  {
    FindIgnoresMode(cfg, Lite, walk, q);
    FindIgnoresMode(cfg, Full, walk, q);
    MovedAwayIgnoresMode(cfg, remote, store, walk, q);
  }

  /** A Full push without failures has read every file it marked. */
  lemma {:induction false} FullReadsAll(cfg: Config, st: PushState, walk: seq<Entry>, t: Trace, q: string)
    requires CleanPush(In(cfg, Full), st, walk, t) && Find(cfg, walk, q).Some? && Find(cfg, walk, q).value.kind.Regular?
    ensures Find(cfg, walk, q).value.kind.hashed.Some?
  {
    FindIgnoresMode(cfg, Full, walk, q);
    var i := FoundIsInWalk(cfg, walk, q);
    NothingUnreadable(In(cfg, Full), st, walk, t, i);
    OwnResult(In(cfg, Full), st, walk, t, q);
  }

  lemma {:induction false} ScanErrors(cfg: Config, mem: View, walk: seq<Entry>, i: nat)
    requires ScanAll(cfg, mem, walk).tally.errors == 0 && i < |walk|
    ensures !Judge(cfg, mem, walk[i]).Unreadable?
  {
    if i < |walk| - 1 {
      ScanErrors(cfg, mem, walk[..|walk| - 1], i);
    }
  }

  lemma {:induction false} NothingUnreadable(cfg: Config, st: PushState, walk: seq<Entry>, t: Trace, i: nat)
    requires CleanRun(cfg, st, walk, t) && i < |walk|
    ensures !Judge(cfg, st.store, walk[i]).Unreadable?
  {
    CleanPhases(cfg, st, walk, t);
    FilesKeepClean(cfg, AfterScan(cfg, st, walk), t.requests, t.fileOuts);
    ScanErrors(cfg, st.store, walk, i);
  }

  lemma {:induction false} FilesKeepClean(cfg: Config, st: PushState, requests: seq<Request>, outs: seq<FileOut>)
    requires |requests| == |outs| && Clean(Files(cfg, st, requests, outs))
    ensures Clean(st)
  {
    if requests != [] {
      var n := |requests| - 1;
      StepIsHandle(cfg, Files(cfg, st, requests[..n], outs[..n]), requests[n], outs[n], "");
      FilesKeepClean(cfg, st, requests[..n], outs[..n]);
    }
  }

  /**
   Two pushes without failures from the same state, one scanning Lite and one Full, end with the
   same path, hash, size and status in every record, and with the same remote tree if the queries
   about old names were answered, provided that size and time tell contents apart and that the
   records of symlinks are true.
   */
  lemma {:induction false} LiteRefinesFull(cfg: Config, st: PushState, walk: seq<Entry>, lite: Trace, full: Trace, q: string)
    requires CleanPush(In(cfg, Lite), st, walk, lite) && CleanPush(In(cfg, Full), st, walk, full)
    requires Steady(walk) && RecordsTell(cfg, st.store, walk) && LinksTell(cfg, st.remote, st.store, walk)
    ensures (Answered(st, lite) && Answered(st, full)) || Find(cfg, walk, q).Some? ==>
              Get(After(In(cfg, Lite), st, walk, lite).remote, q) == Get(After(In(cfg, Full), st, walk, full).remote, q)
    ensures SameButTime(Get(After(In(cfg, Lite), st, walk, lite).store, q), Get(After(In(cfg, Full), st, walk, full).store, q))
  {
    CleanPushIsDetermined(In(cfg, Lite), st, walk, lite, q);
    CleanPushIsDetermined(In(cfg, Full), st, walk, full, q);
    FindIgnoresMode(cfg, Lite, walk, q);
    FindIgnoresMode(cfg, Full, walk, q);
    if Find(cfg, walk, q).Some? {
      if Find(cfg, walk, q).value.kind.Regular? {
        FullReadsAll(cfg, st, walk, full, q);
      }
      FoundSame(cfg, st.remote, st.store, walk, q);
    } else {
      UnfoundSame(cfg, st.remote, st.store, walk, q);
    }
  }

  // ---------------------------------------------------------------------------------------
  // Quiescence
  // ---------------------------------------------------------------------------------------

  /** The next Lite push of the same tree; a migration marker is gone by then. */
  function Next(cfg: Config): Config { cfg.(mode := Lite, migration := None) }

  lemma {:induction false} NothingToDo(cfg: Config, mem: View, walk: seq<Entry>)
    requires forall i :: 0 <= i < |walk| ==> var v := Judge(cfg, mem, walk[i]); v.Ignore? || v.Skip?
    ensures ScanAll(cfg, mem, walk).requests == [] && ScanAll(cfg, mem, walk).links == []
  {
    if walk != [] {
      NothingToDo(cfg, mem, walk[..|walk| - 1]);
    }
  }

  /** The record that a push leaves makes the next Lite scan pass over the entry. */
  lemma {:induction false} RecordSettles(cfg: Config, store: View, walk: seq<Entry>, i: nat, after: View)
    requires i < |walk| && Steady(walk) && Marks(cfg, walk[i]) && !Judge(cfg, store, walk[i]).Unreadable?
    requires Find(cfg, walk, RemotePath(cfg, walk[i])) == Some(walk[i])
    requires Judge(cfg, store, walk[i]).Prepare? ==> walk[i].kind.hashed.Some?
    requires Get(after, RemotePath(cfg, walk[i])) == FinalRecord(cfg, store, walk, RemotePath(cfg, walk[i]))
    ensures Judge(Next(cfg), after, walk[i]).Skip?
  {
  }

  lemma {:induction false} SeenIgnoresMigration(cfg: Config, walk: seq<Entry>, q: string)
    ensures Find(Next(cfg), walk, q) == Find(cfg, walk, q)
  {
    if walk != [] {
      SeenIgnoresMigration(cfg, walk[..|walk| - 1], q);
    }
  }

  lemma {:induction false} NoCandidates(cfg: Config, st: PushState, walk: seq<Entry>, t: Trace)
    requires CleanRun(cfg, st, walk, t)
    ensures var store := After(cfg, st, walk, t).store;
            DeletionCandidates(Next(cfg), store, ScanAll(Next(cfg), store, walk).seen) == {}
  {
    var store := After(cfg, st, walk, t).store;
    var seen := ScanAll(Next(cfg), store, walk).seen;
    forall q | q in store && q !in seen ensures IsExcludedByChild(q, cfg.exclusions) || !cfg.deletesRemotely {
      SeenIsFound(Next(cfg), store, walk, q);
      SeenIgnoresMigration(cfg, walk, q);
      UnseenRecordIs(cfg, st, walk, t, q);
    }
  }

  lemma {:induction false} SomethingIsThere<T>(a: seq<T>)
    ensures a != [] ==> multiset(a) != multiset{} && Elements(a) != {}
  {
    if a != [] {
      assert a[0] in multiset(a) && a[0] in Elements(a);
    }
  }

  /** A Lite push that follows a push without failures, and whose scan finds nothing to do, does nothing. */
  lemma {:induction false} NothingFoundNothingDone(cfg: Config, st: PushState, walk: seq<Entry>, t: Trace, next: PushState, u: Trace)
    requires CleanRun(cfg, st, walk, t)
    requires next.store == After(cfg, st, walk, t).store && ValidTrace(Next(cfg), next, walk, u)
    requires forall i :: 0 <= i < |walk| ==> var v := Judge(Next(cfg), next.store, walk[i]); v.Ignore? || v.Skip?
    ensures var after := After(Next(cfg), next, walk, u);
            after.ledger == next.ledger && after.remote == next.remote && after.store == next.store && !after.halted
  {
    NothingToDo(Next(cfg), next.store, walk);
    SomethingIsThere(u.requests);
    SomethingIsThere(u.links);
    NoCandidates(cfg, st, walk, t);
    var cleaned := AfterCleanup(Next(cfg), next, walk, u);
    assert cleaned == AfterScan(Next(cfg), next, walk);
    SomethingIsThere(u.deletions);
  }

  // ---------------------------------------------------------------------------------------
  // Uploads of one path
  // ---------------------------------------------------------------------------------------

  /** From the k-th operation on, no batch handed over holds a file of that name. */
  ghost predicate NoUploads(ops: seq<Op>, k: nat, q: string) {
    forall i :: k <= i < |ops| && ops[i].Upload? ==> LastIn(ops[i].files, q).None?
  }

  ghost predicate Idle(st: PushState, k: nat, q: string) {
    NoUploads(st.ledger.ops, k, q) && LastIn(st.batch, q).None?
  }

  lemma {:induction false} FlushIdle(st: PushState, out: FlushOut, k: nat, q: string)
    requires Idle(st, k, q)
    ensures Idle(Flush(st, out), k, q)
  {
    FlushOps(st, out);
  }

  lemma {:induction false} EnqueueIdle(cfg: Config, st: PushState, file: PendingPushFile, out: FileOut, k: nat, q: string)
    requires Idle(st, k, q) && file.remotePath != q
    ensures Idle(Enqueue(cfg, st, file, out), k, q)
  {
    FlushIdle(st, out.before, k, q);
    var ready := if FlushBefore(st.batch, file, cfg.blob) then Flush(st, out.before) else st;
    LastInAppend(ready.batch, file, q);
    FlushIdle(ready.(batch := ready.batch + [file]), out.now, k, q);
  }

  lemma {:induction false} HandleIdle(cfg: Config, st: PushState, r: Request, out: FileOut, k: nat, q: string)
    requires Idle(st, k, q) && r.hashed.Some? && (r.path == q ==> !Decide(st.remote, st.mem, r, out).Queue?)
    ensures Idle(Handle(cfg, st, r, out), k, q)
  {
    match Decide(st.remote, st.mem, r, out)
    case HashSkip =>
    case Migrate => assert MigratedFile(st, r, out.move).ledger.ops == st.ledger.ops + [Rename(r.oldPath.value, r.path)];
    case Adopt =>
    case Queue => EnqueueIdle(cfg, st, Candidate(r), out, k, q);
  }

  lemma {:induction false} CompleteIdle(st: PushState, out: FlushOut, k: nat, q: string)
    requires Idle(st, k, q)
    ensures Idle(Complete(st, out), k, q)
  {
    FlushIdle(st.(tally := Completed(st.tally)), out, k, q);
  }

  lemma {:induction false} FileStepIdle(cfg: Config, st: PushState, r: Request, out: FileOut, k: nat, q: string)
    requires Idle(st, k, q) && (r.path == q && r.hashed.Some? ==> !Decide(st.remote, st.mem, r, out).Queue?)
    ensures Idle(FileStep(cfg, st, r, out), k, q)
  {
    if !st.halted {
      if r.hashed.None? {
        CompleteIdle(st.(tally := Failed(st.tally)), out.progress, k, q);
      } else {
        HandleIdle(cfg, st, r, out, k, q);
        CompleteIdle(Handle(cfg, st, r, out), out.progress, k, q);
      }
    }
  }

  lemma {:induction false} LinksIdle(cfg: Config, st: PushState, tasks: seq<LinkTask>, outs: seq<LinkOut>, k: nat, q: string)
    requires |tasks| == |outs| && NoUploads(st.ledger.ops, k, q)
    ensures NoUploads(Links(cfg, st, tasks, outs).ledger.ops, k, q)
  {
    if tasks != [] {
      LinksIdle(cfg, st, tasks[..|tasks| - 1], outs[..|tasks| - 1], k, q);
    }
  }

  lemma {:induction false} DeletionsIdle(st: PushState, paths: seq<string>, outs: seq<DeleteOut>, k: nat, q: string)
    requires |paths| == |outs| && NoUploads(st.ledger.ops, k, q)
    ensures NoUploads(Deletions(st, paths, outs).ledger.ops, k, q)
  {
    if paths != [] {
      DeletionsIdle(st, paths[..|paths| - 1], outs[..|paths| - 1], k, q);
    }
  }

  lemma {:induction false} RestIdle(cfg: Config, st: PushState, walk: seq<Entry>, t: Trace, k: nat, q: string)
    requires |t.requests| == |t.fileOuts| && |t.links| == |t.linkOuts| && |t.deletions| == |t.deleteOuts|
    requires Idle(Files(cfg, AfterScan(cfg, st, walk), t.requests, t.fileOuts), k, q)
    ensures NoUploads(After(cfg, st, walk, t).ledger.ops, k, q)
  {
    FlushIdle(Files(cfg, AfterScan(cfg, st, walk), t.requests, t.fileOuts), t.lastFlush, k, q);
    LinksIdle(cfg, AfterFiles(cfg, st, walk, t), t.links, t.linkOuts, k, q);
    DeletionsIdle(AfterCleanup(cfg, st, walk, t), t.deletions, t.deleteOuts, k, q);
  }

  lemma {:induction false} FilesIdle(cfg: Config, st: PushState, requests: seq<Request>, outs: seq<FileOut>, k: nat, q: string)
    requires |requests| == |outs| && Idle(st, k, q)
    requires forall i :: 0 <= i < |requests| && requests[i].path == q ==> HashSame(requests[i])
    ensures Idle(Files(cfg, st, requests, outs), k, q)
  {
    if requests != [] {
      var n := |requests| - 1;
      FilesIdle(cfg, st, requests[..n], outs[..n], k, q);
      FileStepIdle(cfg, Files(cfg, st, requests[..n], outs[..n]), requests[n], outs[n], k, q);
    }
  }

  lemma {:induction false} FrontIsClean(cfg: Config, st: PushState, requests: seq<Request>, outs: seq<FileOut>)
    requires |requests| == |outs| > 0 && Clean(Files(cfg, st, requests, outs)) && AllApart(requests)
    ensures var n := |requests| - 1; Clean(Files(cfg, st, requests[..n], outs[..n])) && AllApart(requests[..n])
  {
    var n := |requests| - 1;
    StepIsHandle(cfg, Files(cfg, st, requests[..n], outs[..n]), requests[n], outs[n], "");
  }

  // ---------------------------------------------------------------------------------------
  // No echo
  // ---------------------------------------------------------------------------------------

  /** What the walk finds where the pull put the file. */
  ghost predicate WalkMeets(walk: seq<Entry>, nodes: Tree, at: Components) {
    forall i :: 0 <= i < |walk| && walk[i].relative == at && walk[i].kind.Regular? && at in nodes && nodes[at].LocalFile? ==>
      walk[i].kind.hashed == Some(Hashed(ContentHash(nodes[at].bytes), |nodes[at].bytes|))
  }

  /** A file whose stored record has its content hash is not uploaded, whatever else happens. */
  lemma {:induction false} KnownFileIsNotUploaded(cfg: Config, st: PushState, walk: seq<Entry>, t: Trace, at: Components, hashed: Hashed)
    requires ValidTrace(cfg, st, walk, t) && ProperWalk(walk) && AllComponents(at)
    requires var q := ComputeRemotePath(at, cfg.remoteBase); q in st.store && st.store[q].contentHash == hashed.hash
    requires forall i :: 0 <= i < |walk| && walk[i].relative == at && walk[i].kind.Regular? ==> walk[i].kind.hashed == Some(hashed)
    ensures NoUploads(After(cfg, st, walk, t).ledger.ops, |st.ledger.ops|, ComputeRemotePath(at, cfg.remoteBase))
  {
    var q := ComputeRemotePath(at, cfg.remoteBase);
    forall k | 0 <= k < |t.requests| && t.requests[k].path == q ensures HashSame(t.requests[k]) {
      var e := RequestEntry(cfg, st, walk, t, k);
      RemotePathInjective(walk[e].relative, at, cfg.remoteBase);
    }
    FilesIdle(cfg, AfterScan(cfg, st, walk), t.requests, t.fileOuts, |st.ledger.ops|, q);
    RestIdle(cfg, st, walk, t, |st.ledger.ops|, q);
  }

  /**
   A file of the relationship pulled without error, that nothing later in the same diff concerns,
   is not pushed back, whatever the push scan mode, the times on disk and the outcomes: its
   remote name is the one the pull recorded, and the record has the hash of what is on disk.
   */
  lemma {:induction false} PulledFileIsNotEchoed(pullCfg: Pull.Config, before: Pull.Snapshot, now: Pull.Snapshot, pulled: Pull.PullState,
                                                 diff: Pull.Diff, pt: Pull.Trace, i: nat,
                                                 cfg: Config, st: PushState, walk: seq<Entry>, t: Trace)
    requires Pull.Sound(pullCfg, pulled, before, now, diff, pt) && i < |diff.Files()| && pt.files[i].FilePulled? && pt.files[i].recorded
    requires Canonical(diff.Files()[i].path, pullCfg.remoteBase)
    requires Pull.NothingLater(pullCfg, before, diff, pt, i)
    requires st.store == Pull.After(pullCfg, pulled, diff, pt).records && cfg.remoteBase == pullCfg.remoteBase
    requires ValidTrace(cfg, st, walk, t) && ProperWalk(walk)
    requires WalkMeets(walk, Pull.After(pullCfg, pulled, diff, pt).nodes, Pull.Local(pullCfg, diff.Files()[i].path))
    ensures NoUploads(After(cfg, st, walk, t).ledger.ops, |st.ledger.ops|, diff.Files()[i].path)
  {
    var q := diff.Files()[i].path;
    var at := Pull.Local(pullCfg, q);
    Pull.PulledFileIsRecorded(pullCfg, before, now, pulled, diff, pt, i);
    RemoteOfLocalIffCanonical(q, cfg.remoteBase);
    LocalIsComponents(q, cfg.remoteBase);
    var bytes := pt.files[i].bytes;
    KnownFileIsNotUploaded(cfg, st, walk, t, at, Hashed(ContentHash(bytes), |bytes|));
  }
}
