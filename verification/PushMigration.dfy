/**
 Remote deletions: which ones a push asks for, and what that means for the files under the old
 base of a root migration, over runs of pushes, pulls and further root changes.
 */
module PushMigration {
  import opened Prelude
  import opened Chunks
  import opened Paths
  import opened Planning
  import opened Batching
  import opened Hierarchy
  import opened MetadataStore
  import opened Push
  import opened PushFacts
  import opened PushClean
  import opened PushResult
  import opened PushResume
  import opened PushOverlap
  import Pull
  import PullMirror

  // ---------------------------------------------------------------------------------------
  // Records of paths that no scanned file bears
  // ---------------------------------------------------------------------------------------

  /** Nothing is under way for the path, and what the store knows of it memory knows too. */
  ghost predicate Known(st: PushState, q: string) {
    Absent(st, q) && (q in st.store ==> q in st.mem)
  }

  /** From one state to the next the path gains no record; it keeps the one it has unless a file comes from there. */
  ghost predicate Shrinks(before: PushState, after: PushState, q: string, mayDrop: bool) {
    (Known(before, q) ==> Known(after, q)) &&
    (Absent(before, q) ==> (q in after.mem ==> q in before.mem) && (q in after.store ==> q in before.store)) &&
    (Absent(before, q) && !mayDrop ==> (q in before.mem ==> q in after.mem) && (q in before.store ==> q in after.store))
  }

  /** The operations so far hold no deletion of the path from the k-th on. */
  ghost predicate NoDeletes(ops: seq<Op>, k: nat, q: string) {
    forall i :: k <= i < |ops| ==> ops[i] != Delete(q)
  }

  /** A step keeps deletions out and records from appearing. */
  ghost predicate Passes(before: PushState, after: PushState, q: string, mayDrop: bool) {
    Shrinks(before, after, q, mayDrop) && (forall k: nat :: NoDeletes(before.ledger.ops, k, q) ==> NoDeletes(after.ledger.ops, k, q))
  }

  lemma {:induction false} FlushAside(st: PushState, out: FlushOut, q: string)
    requires Absent(st, q)
    ensures var after := Flush(st, out);
            Absent(after, q) && Get(after.store, q) == Get(st.store, q) && Get(after.mem, q) == Get(st.mem, q) &&
            (forall k: nat :: NoDeletes(st.ledger.ops, k, q) ==> NoDeletes(after.ledger.ops, k, q))
  {
    FlushElsewhere(st, out, q);
    FlushOps(st, out);
  }

  lemma {:induction false} EnqueueAside(cfg: Config, st: PushState, file: PendingPushFile, out: FileOut, q: string)
    requires Absent(st, q) && file.remotePath != q
    ensures var after := Enqueue(cfg, st, file, out);
            Absent(after, q) && Get(after.store, q) == Get(st.store, q) && Get(after.mem, q) == Get(st.mem, q) &&
            (forall k: nat :: NoDeletes(st.ledger.ops, k, q) ==> NoDeletes(after.ledger.ops, k, q))
  {
    FlushAside(st, out.before, q);
    var ready := if FlushBefore(st.batch, file, cfg.blob) then Flush(st, out.before) else st;
    if !ready.halted {
      FlushAside(ready.(batch := ready.batch + [file]), out.now, q);
    }
  }

  lemma {:induction false} MigratedAside(st: PushState, r: Request, end: MoveEnd, q: string)
    requires r.hashed.Some? && r.oldPath.Some? && r.path != q && Absent(st, q)
    ensures Passes(st, MigratedFile(st, r, end), q, r.oldPath == Some(q))
  {
    var after := MigratedFile(st, r, end);
    assert after.ledger.ops == st.ledger.ops + [Rename(r.oldPath.value, r.path)];
  }

  lemma {:induction false} AdoptedAside(st: PushState, r: Request, end: AdoptEnd, q: string)
    requires r.hashed.Some? && r.oldPath.Some? && r.path != q && Absent(st, q)
    ensures Passes(st, AdoptedFile(st, r, end), q, r.oldPath == Some(q))
  {
  }

  lemma {:induction false} HandleAside(cfg: Config, st: PushState, r: Request, out: FileOut, q: string)
    requires r.hashed.Some? && r.path != q && Absent(st, q)
    ensures Absent(Handle(cfg, st, r, out), q) && Passes(st, Handle(cfg, st, r, out), q, r.oldPath == Some(q))
  {
    match Decide(st.remote, st.mem, r, out)
    case HashSkip =>
    case Migrate => MigratedAside(st, r, out.move, q);
    case Adopt => AdoptedAside(st, r, out.adopt, q);
    case Queue => EnqueueAside(cfg, st, Candidate(r), out, q);
  }

  lemma {:induction false} CompleteAside(st: PushState, out: FlushOut, q: string)
    requires Absent(st, q)
    ensures Absent(Complete(st, out), q) && Passes(st, Complete(st, out), q, false)
  {
    FlushAside(st.(tally := Completed(st.tally)), out, q);
  }

  lemma {:induction false} FileStepAside(cfg: Config, st: PushState, r: Request, out: FileOut, q: string)
    requires r.path != q && Absent(st, q)
    ensures Absent(FileStep(cfg, st, r, out), q) && Passes(st, FileStep(cfg, st, r, out), q, r.oldPath == Some(q))
  {
    if !st.halted {
      if r.hashed.None? {
        CompleteAside(st.(tally := Failed(st.tally)), out.progress, q);
      } else {
        HandleAside(cfg, st, r, out, q);
        CompleteAside(Handle(cfg, st, r, out), out.progress, q);
      }
    }
  }

  ghost predicate ComesFrom(requests: seq<Request>, q: string) {
    exists i :: 0 <= i < |requests| && requests[i].oldPath == Some(q)
  }

  lemma {:induction false} FilesAside(cfg: Config, st: PushState, requests: seq<Request>, outs: seq<FileOut>, q: string)
    requires |requests| == |outs| && Absent(st, q) && forall i :: 0 <= i < |requests| ==> requests[i].path != q
    ensures Absent(Files(cfg, st, requests, outs), q) && Passes(st, Files(cfg, st, requests, outs), q, ComesFrom(requests, q))
  {
    if requests != [] {
      var n := |requests| - 1;
      FilesAside(cfg, st, requests[..n], outs[..n], q);
      FileStepAside(cfg, Files(cfg, st, requests[..n], outs[..n]), requests[n], outs[n], q);
      assert ComesFrom(requests[..n], q) ==> ComesFrom(requests, q) by {
        if i :| 0 <= i < n && requests[..n][i].oldPath == Some(q) {
          assert requests[i].oldPath == Some(q);
        }
      }
      assert requests[n].oldPath == Some(q) ==> ComesFrom(requests, q);
    }
  }

  lemma {:induction false} PendingAside(st: PushState, stored: bool, q: string)
    requires Absent(st, q)
    ensures Absent(FlushPending(st, stored), q) && Passes(st, FlushPending(st, stored), q, false)
  {
    LastForIsThere(st.pending, q);
    WriteAllGets(st.store, st.pending, q);
  }

  lemma {:induction false} LinkStepAside(cfg: Config, st: PushState, task: LinkTask, out: LinkOut, q: string)
    requires task.path != q && Absent(st, q)
    ensures Absent(LinkStep(cfg, st, task, out), q) && Passes(st, LinkStep(cfg, st, task, out), q, false)
  {
    var after := LinkStep(cfg, st, task, out);
    assert after.ledger.ops == st.ledger.ops || after.ledger.ops == st.ledger.ops + [PutLink(task.path)];
  }

  lemma {:induction false} LinksAside(cfg: Config, st: PushState, tasks: seq<LinkTask>, outs: seq<LinkOut>, q: string)
    requires |tasks| == |outs| && Absent(st, q) && forall i :: 0 <= i < |tasks| ==> tasks[i].path != q
    ensures Absent(Links(cfg, st, tasks, outs), q) && Passes(st, Links(cfg, st, tasks, outs), q, false)
  {
    if tasks != [] {
      var n := |tasks| - 1;
      LinksAside(cfg, st, tasks[..n], outs[..n], q);
      LinkStepAside(cfg, Links(cfg, st, tasks[..n], outs[..n]), tasks[n], outs[n], q);
    }
  }

  /** Up to the cleanup, for a path that no scanned file bears. */
  lemma {:induction false} BeforeCleanup(cfg: Config, st: PushState, walk: seq<Entry>, t: Trace, q: string)
    requires ValidTrace(cfg, st, walk, t) && ProperWalk(walk) && Find(cfg, walk, q).None?
    ensures Passes(AfterScan(cfg, st, walk), AfterLinks(cfg, st, walk, t), q, ComesFrom(t.requests, q))
    ensures Absent(AfterLinks(cfg, st, walk, t), q)
  {
    var start := AfterScan(cfg, st, walk);
    forall i | 0 <= i < |t.requests| ensures t.requests[i].path != q {
      var e := RequestEntry(cfg, st, walk, t, i);
    }
    forall i | 0 <= i < |t.links| ensures t.links[i].path != q {
      var e := TaskEntry(cfg, st, walk, t, i);
    }
    FilesAside(cfg, start, t.requests, t.fileOuts, q);
    var files := Files(cfg, start, t.requests, t.fileOuts);
    FlushAside(files, t.lastFlush, q);
    PendingAside(Flush(files, t.lastFlush), t.pendingStored, q);
    var mid := AfterFiles(cfg, st, walk, t);
    LinksAside(cfg, mid, t.links, t.linkOuts, q);
    PendingAside(Links(cfg, mid, t.links, t.linkOuts), t.linksStored, q);
  }

  lemma {:induction false} CleanupKeepsOps(cfg: Config, st: PushState, seen: set<string>, finishes: bool, dropped: set<string>)
    ensures Cleanup(cfg, st, seen, finishes, dropped).ledger == st.ledger
  {
  }

  lemma {:induction false} DeletionsIssued(st: PushState, paths: seq<string>, outs: seq<DeleteOut>, k: nat, q: string)
    requires |paths| == |outs| && NoDeletes(st.ledger.ops, k, q) && k <= |st.ledger.ops|
    ensures q !in paths ==> NoDeletes(Deletions(st, paths, outs).ledger.ops, k, q)
    ensures q in paths && !Deletions(st, paths, outs).halted ==> !NoDeletes(Deletions(st, paths, outs).ledger.ops, k, q)
    ensures |Deletions(st, paths, outs).ledger.ops| >= |st.ledger.ops|
    ensures st.halted ==> Deletions(st, paths, outs) == st
  {
    if paths != [] {
      var n := |paths| - 1;
      DeletionsIssued(st, paths[..n], outs[..n], k, q);
      var before := Deletions(st, paths[..n], outs[..n]);
      var after := Deletions(st, paths, outs);
      if !before.halted {
        assert after.ledger.ops == before.ledger.ops + [Delete(paths[n])];
        assert q in paths <==> q in paths[..n] || q == paths[n];
        assert after.ledger.ops[|before.ledger.ops|] == Delete(paths[n]);
        if q in paths[..n] {
          var i :| k <= i < |before.ledger.ops| && before.ledger.ops[i] == Delete(q);
          assert after.ledger.ops[i] == Delete(q);
        }
      }
    }
  }

  /** The operations a push adds hold a deletion of the path. */
  ghost predicate Deletes(cfg: Config, st: PushState, walk: seq<Entry>, t: Trace, q: string)
    requires ValidTrace(cfg, st, walk, t)
  {
    !NoDeletes(After(cfg, st, walk, t).ledger.ops, |st.ledger.ops|, q)
  }

  /** The file, link and cleanup phases delete nothing. */
  lemma {:induction false} NoEarlyDeletes(cfg: Config, st: PushState, walk: seq<Entry>, t: Trace, q: string)
    requires ValidTrace(cfg, st, walk, t)
    ensures NoDeletes(AfterCleanup(cfg, st, walk, t).ledger.ops, |st.ledger.ops|, q)
    ensures |AfterCleanup(cfg, st, walk, t).ledger.ops| >= |st.ledger.ops|
  {
    var start := AfterScan(cfg, st, walk);
    FilesDeleteNothing(cfg, start, t.requests, t.fileOuts, |st.ledger.ops|, q);
    FlushDeletesNothing(Files(cfg, start, t.requests, t.fileOuts), t.lastFlush, |st.ledger.ops|, q);
    LinksDeleteNothing(cfg, AfterFiles(cfg, st, walk, t), t.links, t.linkOuts, |st.ledger.ops|, q);
    CleanupKeepsOps(cfg, AfterLinks(cfg, st, walk, t), ScanAll(cfg, st.store, walk).seen, t.cleanupFinishes, t.dropped);
  }

  lemma {:induction false} FlushDeletesNothing(st: PushState, out: FlushOut, k: nat, q: string)
    requires NoDeletes(st.ledger.ops, k, q)
    ensures NoDeletes(Flush(st, out).ledger.ops, k, q) && |Flush(st, out).ledger.ops| >= |st.ledger.ops|
  {
    FlushOps(st, out);
  }

  lemma {:induction false} FileStepDeletesNothing(cfg: Config, st: PushState, r: Request, out: FileOut, k: nat, q: string)
    requires NoDeletes(st.ledger.ops, k, q)
    ensures NoDeletes(FileStep(cfg, st, r, out).ledger.ops, k, q) && |FileStep(cfg, st, r, out).ledger.ops| >= |st.ledger.ops|
  {
    if !st.halted {
      if r.hashed.None? {
        FlushDeletesNothing(st.(tally := Completed(Failed(st.tally))), out.progress, k, q);
      } else {
        HandleDeletesNothing(cfg, st, r, out, k, q);
        var handled := Handle(cfg, st, r, out);
        FlushDeletesNothing(handled.(tally := Completed(handled.tally)), out.progress, k, q);
      }
    }
  }

  lemma {:induction false} HandleDeletesNothing(cfg: Config, st: PushState, r: Request, out: FileOut, k: nat, q: string)
    requires r.hashed.Some? && NoDeletes(st.ledger.ops, k, q)
    ensures NoDeletes(Handle(cfg, st, r, out).ledger.ops, k, q) && |Handle(cfg, st, r, out).ledger.ops| >= |st.ledger.ops|
  {
    match Decide(st.remote, st.mem, r, out)
    case HashSkip =>
    case Migrate => assert MigratedFile(st, r, out.move).ledger.ops == st.ledger.ops + [Rename(r.oldPath.value, r.path)];
    case Adopt =>
    case Queue =>
      var file := Candidate(r);
      FlushDeletesNothing(st, out.before, k, q);
      var ready := if FlushBefore(st.batch, file, cfg.blob) then Flush(st, out.before) else st;
      FlushDeletesNothing(ready.(batch := ready.batch + [file]), out.now, k, q);
  }

  lemma {:induction false} FilesDeleteNothing(cfg: Config, st: PushState, requests: seq<Request>, outs: seq<FileOut>, k: nat, q: string)
    requires |requests| == |outs| && NoDeletes(st.ledger.ops, k, q)
    ensures NoDeletes(Files(cfg, st, requests, outs).ledger.ops, k, q) && |Files(cfg, st, requests, outs).ledger.ops| >= |st.ledger.ops|
  {
    if requests != [] {
      var n := |requests| - 1;
      FilesDeleteNothing(cfg, st, requests[..n], outs[..n], k, q);
      FileStepDeletesNothing(cfg, Files(cfg, st, requests[..n], outs[..n]), requests[n], outs[n], k, q);
    }
  }

  lemma {:induction false} LinksDeleteNothing(cfg: Config, st: PushState, tasks: seq<LinkTask>, outs: seq<LinkOut>, k: nat, q: string)
    requires |tasks| == |outs| && NoDeletes(st.ledger.ops, k, q)
    ensures NoDeletes(Links(cfg, st, tasks, outs).ledger.ops, k, q) && |Links(cfg, st, tasks, outs).ledger.ops| >= |st.ledger.ops|
  {
    if tasks != [] {
      var n := |tasks| - 1;
      LinksDeleteNothing(cfg, st, tasks[..n], outs[..n], k, q);
      var before := Links(cfg, st, tasks[..n], outs[..n]);
      var after := LinkStep(cfg, before, tasks[n], outs[n]);
      assert after.ledger.ops == before.ledger.ops || after.ledger.ops == before.ledger.ops + [PutLink(tasks[n].path)];
    }
  }

  /**
   A push deletes a remote path only if the path was on record when the push began, no scanned
   file bears it, it lies outside the base being migrated away from, and no child relationship
   owns it.
   */
  lemma {:induction false} DeletedWasRecordedAndUnseen(cfg: Config, st: PushState, walk: seq<Entry>, t: Trace, q: string)
    requires ValidTrace(cfg, st, walk, t) && ProperWalk(walk) && Deletes(cfg, st, walk, t, q)
    ensures q in st.store && Find(cfg, walk, q).None? && !UnderOldBase(cfg, q) && cfg.deletesRemotely &&
            !IsExcludedByChild(q, cfg.exclusions)
  {
    var cleaned := AfterCleanup(cfg, st, walk, t);
    NoEarlyDeletes(cfg, st, walk, t, q);
    DeletionsIssued(cleaned, t.deletions, t.deleteOuts, |st.ledger.ops|, q);
    assert q in Elements(t.deletions);
    SeenIsFound(cfg, st.store, walk, q);
    BeforeCleanup(cfg, st, walk, t, q);
  }

  /**
   For a recorded path that no scanned file bears or comes from, a push that runs to its end
   asks for the deletion if and only if deletions propagate and neither the base of the pending
   migration nor a child relationship protects the path.
   */
  lemma {:induction false} UnseenRecordDeletedIff(cfg: Config, st: PushState, walk: seq<Entry>, t: Trace, q: string)
    requires ValidTrace(cfg, st, walk, t) && ProperWalk(walk) && !After(cfg, st, walk, t).halted
    requires q in st.store && Find(cfg, walk, q).None? && !ComesFrom(t.requests, q)
    ensures Deletes(cfg, st, walk, t, q) <==>
            cfg.deletesRemotely && !UnderOldBase(cfg, q) && !IsExcludedByChild(q, cfg.exclusions)
  {
    var cleaned := AfterCleanup(cfg, st, walk, t);
    NoEarlyDeletes(cfg, st, walk, t, q);
    DeletionsIssued(cleaned, t.deletions, t.deleteOuts, |st.ledger.ops|, q);
    SeenIsFound(cfg, st.store, walk, q);
    BeforeCleanup(cfg, st, walk, t, q);
    assert q in t.deletions <==> q in Elements(t.deletions);
  }

  lemma {:induction false} UnmarkedIsNotFound(cfg: Config, walk: seq<Entry>, i: nat, n: nat)
    requires ProperWalk(walk) && i < |walk| && n <= |walk| && !Marks(cfg, walk[i])
    ensures Find(cfg, walk[..n], RemotePath(cfg, walk[i])).None?
  {
    if n > 0 {
      UnmarkedIsNotFound(cfg, walk, i, n - 1);
      assert walk[..n][..n - 1] == walk[..n - 1];
      if RemotePath(cfg, walk[n - 1]) == RemotePath(cfg, walk[i]) {
        RemotePathInjective(walk[n - 1].relative, walk[i].relative, cfg.remoteBase);
      }
    }
  }

  /**
   An entry whose metadata cannot be read, or whose name the filter rejects, is on disk but not
   marked as seen: if it has a record, its remote file is deleted as though it were gone.
   */
  lemma {:induction false} UnmarkedFileIsTakenForDeleted(cfg: Config, st: PushState, walk: seq<Entry>, t: Trace, i: nat)
    requires ValidTrace(cfg, st, walk, t) && ProperWalk(walk) && !After(cfg, st, walk, t).halted
    requires i < |walk| && (walk[i].kind.NoMetadata? || (walk[i].kind.Regular? && !cfg.matchesFilter(FileName(walk[i].relative))))
    requires var q := RemotePath(cfg, walk[i]);
             q in st.store && !ComesFrom(t.requests, q) && cfg.deletesRemotely && !UnderOldBase(cfg, q) && !IsExcludedByChild(q, cfg.exclusions)
    ensures Deletes(cfg, st, walk, t, RemotePath(cfg, walk[i]))
  {
    UnmarkedIsNotFound(cfg, walk, i, |walk|);
    assert walk[..|walk|] == walk;
    UnseenRecordDeletedIff(cfg, st, walk, t, RemotePath(cfg, walk[i]));
  }

  // ---------------------------------------------------------------------------------------
  // Records of unborne paths, push by push
  // ---------------------------------------------------------------------------------------

  /** Under a marker that does not cover the path no file comes from there. */
  lemma {:induction false} NothingComesFrom(cfg: Config, st: PushState, walk: seq<Entry>, t: Trace, q: string)
    requires ValidTrace(cfg, st, walk, t) && ProperWalk(walk) && !UnderOldBase(cfg, q)
    ensures !ComesFrom(t.requests, q)
  {
    forall i | 0 <= i < |t.requests| ensures t.requests[i].oldPath != Some(q) {
      var e := RequestEntry(cfg, st, walk, t, i);
      if t.requests[i].oldPath.Some? {
        OldNameUnderOldBase(cfg, walk[e]);
      }
    }
  }

  /** The push got to the deletion of the path, and the deletion and that of its record succeeded. */
  ghost predicate DeletedOk(st: PushState, paths: seq<string>, outs: seq<DeleteOut>, q: string)
    requires |paths| == |outs|
  {
    exists d :: 0 <= d < |paths| && paths[d] == q && outs[d].Deleted? && !Deletions(st, paths[..d], outs[..d]).halted
  }

  lemma {:induction false} DeletionsRecord(st: PushState, paths: seq<string>, outs: seq<DeleteOut>, q: string)
    requires |paths| == |outs|
    ensures q in Deletions(st, paths, outs).store <==> q in st.store && !DeletedOk(st, paths, outs, q)
  {
    if paths != [] {
      var n := |paths| - 1;
      DeletionsRecord(st, paths[..n], outs[..n], q);
      DeletedOkLast(st, paths, outs, q);
    }
  }

  lemma {:induction false} DeletedOkLast(st: PushState, paths: seq<string>, outs: seq<DeleteOut>, q: string)
    requires |paths| == |outs| > 0
    ensures var n := |paths| - 1;
            DeletedOk(st, paths, outs, q) <==>
            DeletedOk(st, paths[..n], outs[..n], q) || (paths[n] == q && outs[n].Deleted? && !Deletions(st, paths[..n], outs[..n]).halted)
  {
    var n := |paths| - 1;
    if DeletedOk(st, paths[..n], outs[..n], q) {
      var d :| 0 <= d < n && paths[..n][d] == q && outs[..n][d].Deleted? && !Deletions(st, paths[..n][..d], outs[..n][..d]).halted;
      assert paths[..n][..d] == paths[..d] && outs[..n][..d] == outs[..d];
      assert paths[d] == q && outs[d].Deleted? && !Deletions(st, paths[..d], outs[..d]).halted;
    }
    if DeletedOk(st, paths, outs, q) {
      var d :| 0 <= d < |paths| && paths[d] == q && outs[d].Deleted? && !Deletions(st, paths[..d], outs[..d]).halted;
      if d < n {
        assert paths[..n][..d] == paths[..d] && outs[..n][..d] == outs[..d];
        assert paths[..n][d] == q && outs[..n][d].Deleted? && !Deletions(st, paths[..n][..d], outs[..n][..d]).halted;
      }
    }
  }

  /** A push deleted the remote file of this name and dropped its record. */
  ghost predicate PushDrops(cfg: Config, st: PushState, walk: seq<Entry>, t: Trace, q: string)
    requires ValidTrace(cfg, st, walk, t)
  {
    DeletedOk(AfterCleanup(cfg, st, walk, t), t.deletions, t.deleteOuts, q)
  }

  /** Under a marker that does not cover it, the record of an unborne path goes only with the remote file. */
  lemma {:induction false} UnborneRecordStaysIff(cfg: Config, st: PushState, walk: seq<Entry>, t: Trace, q: string)
    requires ValidTrace(cfg, st, walk, t) && ProperWalk(walk) && Find(cfg, walk, q).None? && !UnderOldBase(cfg, q)
    ensures q in After(cfg, st, walk, t).store <==> q in st.store && !PushDrops(cfg, st, walk, t, q)
  {
    NothingComesFrom(cfg, st, walk, t, q);
    BeforeCleanup(cfg, st, walk, t, q);
    DeletionsRecord(AfterCleanup(cfg, st, walk, t), t.deletions, t.deleteOuts, q);
  }

  /** Only a candidate is deleted. */
  lemma {:induction false} DroppedWasCandidate(cfg: Config, st: PushState, walk: seq<Entry>, t: Trace, q: string)
    requires ValidTrace(cfg, st, walk, t) && PushDrops(cfg, st, walk, t, q)
    ensures q in DeletionCandidates(cfg, AfterCleanup(cfg, st, walk, t).mem, ScanAll(cfg, st.store, walk).seen)
  {
    var cleaned := AfterCleanup(cfg, st, walk, t);
    var d :| 0 <= d < |t.deletions| && t.deletions[d] == q && t.deleteOuts[d].Deleted? && !Deletions(cleaned, t.deletions[..d], t.deleteOuts[..d]).halted;
    DeletionsShrink(cleaned, t.deletions[..d], t.deleteOuts[..d], q);
    assert t.deletions[d] in Elements(t.deletions);
  }

  /** The cleanup, which runs if nothing has failed, gets to the record of the path: it drops all it finds stale, or some of them before a store error. */
  ghost predicate CleanupDrops(cfg: Config, st: PushState, walk: seq<Entry>, t: Trace, q: string)
    requires ValidTrace(cfg, st, walk, t)
  {
    var before := AfterLinks(cfg, st, walk, t);
    !before.halted && before.tally.errors == 0 && (t.cleanupFinishes || q in t.dropped)
  }

  /** Under the marker that covers it, the record of a path that no scanned file bears or comes from goes only with the cleanup. */
  lemma {:induction false} OldRecordStaysIff(cfg: Config, st: PushState, walk: seq<Entry>, t: Trace, q: string)
    requires ValidTrace(cfg, st, walk, t) && ProperWalk(walk) && Find(cfg, walk, q).None? && UnderOldBase(cfg, q) && !ComesFrom(t.requests, q)
    ensures q in After(cfg, st, walk, t).store <==> q in st.store && !CleanupDrops(cfg, st, walk, t, q)
  {
    BeforeCleanup(cfg, st, walk, t, q);
    SeenIsFound(cfg, st.store, walk, q);
    if PushDrops(cfg, st, walk, t, q) {
      DroppedWasCandidate(cfg, st, walk, t, q);
    }
    DeletionsRecord(AfterCleanup(cfg, st, walk, t), t.deletions, t.deleteOuts, q);
  }

  /** A push that clears the marker leaves no record of the old base that no scanned file bears. */
  lemma {:induction false} ClearedMeansNoRecord(cfg: Config, st: PushState, walk: seq<Entry>, t: Trace, q: string)
    requires ValidTrace(cfg, st, walk, t) && ProperWalk(walk) && Find(cfg, walk, q).None?
    requires (UnderOldBase(cfg, q) && ClearsMarker(cfg, After(cfg, st, walk, t))) || q !in st.store
    ensures q !in After(cfg, st, walk, t).store
  {
    BeforeCleanup(cfg, st, walk, t, q);
    SeenIsFound(cfg, st.store, walk, q);
    var cleaned := AfterCleanup(cfg, st, walk, t);
    DeletionsShrink(cleaned, t.deletions, t.deleteOuts, q);
  }

  lemma {:induction false} DeletionsShrink(st: PushState, paths: seq<string>, outs: seq<DeleteOut>, q: string)
    requires |paths| == |outs|
    ensures var after := Deletions(st, paths, outs);
            (q in after.store ==> q in st.store) && after.tally.errors >= st.tally.errors && (st.halted ==> after.halted)
  {
    if paths != [] {
      DeletionsShrink(st, paths[..|paths| - 1], outs[..|paths| - 1], q);
    }
  }

  // ---------------------------------------------------------------------------------------
  // Runs from a root change on
  // ---------------------------------------------------------------------------------------

  /** The marker as the scan uses it, local paths as components. */
  function MoveOf(m: SyncPathMigration): RootMove {
    RootMove(m.oldRemotePath, m.newRemotePath, Kept(Split(m.oldLocalPath)), Kept(Split(m.newLocalPath)))
  }

  /** `get_path_migration`. */
  function InForce(db: Database, rel: string): Option<RootMove> {
    if MigrationOf(db, rel).Some? then Some(MoveOf(MigrationOf(db, rel).value)) else None
  }

  /** Remote tree and records; and the documents that hold the marker. */
  datatype World = World(st: PushState, db: Database)

  datatype Event =
    | Pushed(cfg: Config, walk: seq<Entry>, trace: Trace)
    | Pulled(pullCfg: Pull.Config, local: Pull.PullState, before: Pull.Snapshot, now: Pull.Snapshot, diff: Pull.Diff, pullTrace: Pull.Trace)
    | OthersWrote                             // other clients change the remote tree
    | RootChanged(migration: SyncPathMigration)

  ghost predicate Happens(rel: string, event: Event, a: World, b: World) {
    match event
    case Pushed(cfg, walk, trace) =>
      cfg.migration == InForce(a.db, rel) && ValidTrace(cfg, a.st, walk, trace) && ProperWalk(walk) && b.st == After(cfg, a.st, walk, trace) &&
      (MigrationOf(b.db, rel) == MigrationOf(a.db, rel) || (ClearsMarker(cfg, b.st) && MigrationOf(b.db, rel) == None))
    case Pulled(cfg, local, before, now, diff, trace) =>
      Pull.Sound(cfg, local, before, now, diff, trace) && local.records == a.st.store &&
      b.st.store == Pull.After(cfg, local, diff, trace).records && MigrationOf(b.db, rel) == MigrationOf(a.db, rel)
    case OthersWrote => b.st.store == a.st.store && MigrationOf(b.db, rel) == MigrationOf(a.db, rel)
    case RootChanged(migration) => b.st == a.st && b.db == Applied(a.db, BeginsMigration(rel, migration))
  }

  ghost predicate Run(rel: string, events: seq<Event>, worlds: seq<World>) {
    |worlds| == |events| + 1 && forall i {:trigger events[i]} :: 0 <= i < |events| ==> Happens(rel, events[i], worlds[i], worlds[i + 1])
  }

  /** The marker in force covers the path. */
  predicate Covered(db: Database, rel: string, q: string) {
    MigrationOf(db, rel).Some? && IsUnderRemoteBase(q, MigrationOf(db, rel).value.oldRemotePath)
  }

  ghost predicate NeverCovered(rel: string, worlds: seq<World>, c: nat, i: nat, q: string)
    requires i <= |worlds|
  {
    forall k :: c <= k < i ==> !Covered(worlds[k].db, rel, q)
  }

  /** No scanned file bears the path in any push of the run. */
  ghost predicate Unborne(events: seq<Event>, q: string) {
    forall i :: 0 <= i < |events| && events[i].Pushed? ==> Find(events[i].cfg, events[i].walk, q).None?
  }

  /** Nor does any scanned file come from there: the file of this name was left behind. */
  ghost predicate LeftBehind(events: seq<Event>, q: string) {
    Unborne(events, q) && forall i :: 0 <= i < |events| && events[i].Pushed? ==> !ComesFrom(events[i].trace.requests, q)
  }

  /** The pull leaves a record of the path, whether there was one before or not. */
  ghost predicate Records(event: Event, q: string) {
    event.Pulled? && Pull.Fits(event.pullCfg, event.diff, event.pullTrace) &&
    Pull.RecordAfter(event.pullCfg, None, event.diff, event.pullTrace, q).Some?
  }

  /** The event drops the record of the path: a pull with the deletion it lists, a push with the remote file, or with its cleanup. */
  ghost predicate Drops(event: Event, a: World, q: string) {
    match event
    case Pushed(cfg, walk, trace) =>
      ValidTrace(cfg, a.st, walk, trace) && if UnderOldBase(cfg, q) then CleanupDrops(cfg, a.st, walk, trace, q) else PushDrops(cfg, a.st, walk, trace, q)
    case Pulled(cfg, _, _, _, diff, trace) =>
      Pull.Fits(cfg, diff, trace) && q in a.st.store &&
      Pull.RecordAfter(cfg, Some(a.st.store[q]), diff, trace, q).None?
    case _ => false
  }

  datatype Effect = Recorded | Dropped | Neither

  /** What an event does to the record of a path that was left behind. */
  ghost function EffectOf(event: Event, a: World, q: string): Effect {
    if Records(event, q) then Recorded else if Drops(event, a, q) then Dropped else Neither
  }

  ghost function Effects(events: seq<Event>, worlds: seq<World>, q: string): (effects: seq<Effect>)
    requires |events| <= |worlds|
    ensures |effects| == |events| && forall i :: 0 <= i < |events| ==> effects[i] == EffectOf(events[i], worlds[i], q)
  {
    seq(|events|, i requires 0 <= i < |events| => EffectOf(events[i], worlds[i], q))
  }

  /** From the c-th event on and before the i-th, some event has recorded the path and none after that one has dropped the record. */
  predicate RecordedBetween(effects: seq<Effect>, c: nat, i: nat)
    requires i <= |effects|
  {
    c < i && (effects[i - 1].Recorded? || (!effects[i - 1].Dropped? && RecordedBetween(effects, c, i - 1)))
  }

  /** The push asks for the deletion of the remote file. */
  ghost predicate AsksDeletion(event: Event, a: World, q: string) {
    event.Pushed? && ValidTrace(event.cfg, a.st, event.walk, event.trace) && Deletes(event.cfg, a.st, event.walk, event.trace, q)
  }

  /** One event and the record of such a path. */
  lemma {:induction false} RecordStep(rel: string, event: Event, a: World, b: World, q: string)
    requires Happens(rel, event, a, b)
    requires event.Pushed? ==> Find(event.cfg, event.walk, q).None? && !ComesFrom(event.trace.requests, q)
    ensures q in b.st.store <==> EffectOf(event, a, q).Recorded? || (q in a.st.store && !EffectOf(event, a, q).Dropped?)
  {
    match event
    case Pushed(cfg, walk, trace) =>
      if UnderOldBase(cfg, q) {
        OldRecordStaysIff(cfg, a.st, walk, trace, q);
      } else {
        UnborneRecordStaysIff(cfg, a.st, walk, trace, q);
      }
    case Pulled(cfg, local, before, now, diff, trace) =>
      Pull.RecordIs(cfg, local, diff, trace, q);
      RecordedAnyway(cfg, Get(a.st.store, q), diff, trace, q);
    case OthersWrote =>
    case RootChanged(migration) =>
  }

  lemma {:induction false} RecordedAnyway(cfg: Pull.Config, record: Option<FileSyncMeta>, diff: Pull.Diff, trace: Pull.Trace, q: string)
    requires Pull.Fits(cfg, diff, trace)
    ensures Pull.RecordAfter(cfg, None, diff, trace, q).Some? ==> Pull.RecordAfter(cfg, record, diff, trace, q).Some?
  {
  }

  ghost predicate FollowsAt(held: seq<bool>, effects: seq<Effect>, k: nat)
    requires k < |effects| < |held|
  {
    held[k + 1] <==> effects[k].Recorded? || (held[k] && !effects[k].Dropped?)
  }

  /** A thing is held as long as the effects say. */
  lemma {:induction false} HeldIff(held: seq<bool>, effects: seq<Effect>, c: nat, i: nat)
    requires c <= i <= |effects| < |held| && !held[c]
    requires forall k :: c <= k < i ==> FollowsAt(held, effects, k)
    ensures held[i] <==> RecordedBetween(effects, c, i)
    decreases i
  {
    if i > c {
      HeldIff(held, effects, c, i - 1);
      assert FollowsAt(held, effects, i - 1);
    }
  }

  /** In which worlds the store has a record of the path. */
  function Held(worlds: seq<World>, q: string): (held: seq<bool>)
    ensures |held| == |worlds| && forall k :: 0 <= k < |worlds| ==> held[k] == (q in worlds[k].st.store)
  {
    seq(|worlds|, k requires 0 <= k < |worlds| => q in worlds[k].st.store)
  }

  lemma {:induction false} StepAt(rel: string, events: seq<Event>, worlds: seq<World>, k: nat, q: string)
    requires Run(rel, events, worlds) && k < |events|
    requires events[k].Pushed? ==> Find(events[k].cfg, events[k].walk, q).None? && !ComesFrom(events[k].trace.requests, q)
    ensures FollowsAt(Held(worlds, q), Effects(events, worlds, q), k)
  {
    RecordStep(rel, events[k], worlds[k], worlds[k + 1], q);
  }

  lemma {:induction false} UncoveredComesNotFrom(rel: string, event: Event, a: World, b: World, q: string)
    requires Happens(rel, event, a, b) && !Covered(a.db, rel, q)
    ensures event.Pushed? ==> !ComesFrom(event.trace.requests, q)
  {
    if event.Pushed? {
      NothingComesFrom(event.cfg, a.st, event.walk, event.trace, q);
    }
  }

  /** While no marker covers it, an unborne path has a record exactly if a pull left one that is still there. */
  lemma {:induction false} RecordedIff(rel: string, events: seq<Event>, worlds: seq<World>, c: nat, i: nat, q: string)
    requires Run(rel, events, worlds) && c <= i <= |events| && Unborne(events, q) && q !in worlds[c].st.store
    requires NeverCovered(rel, worlds, c, i, q)
    ensures q in worlds[i].st.store <==> RecordedBetween(Effects(events, worlds, q), c, i)
  {
    forall k | c <= k < i ensures FollowsAt(Held(worlds, q), Effects(events, worlds, q), k) {
      UncoveredComesNotFrom(rel, events[k], worlds[k], worlds[k + 1], q);
      StepAt(rel, events, worlds, k, q);
    }
    HeldIff(Held(worlds, q), Effects(events, worlds, q), c, i);
  }

  /** The push ends the migration that covers the path. */
  ghost predicate EndsMigration(rel: string, event: Event, a: World, b: World, q: string) {
    event.Pushed? && Covered(a.db, rel, q) && MigrationOf(b.db, rel) == None
  }

  /** Whether a push asks for the deletion of the path, in terms of the store it starts from. */
  lemma {:induction false} DeletesIffRecorded(rel: string, event: Event, a: World, b: World, q: string)
    requires Happens(rel, event, a, b) && event.Pushed? && Find(event.cfg, event.walk, q).None?
    ensures AsksDeletion(event, a, q) ==>
              event.cfg.deletesRemotely && !IsExcludedByChild(q, event.cfg.exclusions) && !Covered(a.db, rel, q) && q in a.st.store
    ensures !b.st.halted && event.cfg.deletesRemotely && !IsExcludedByChild(q, event.cfg.exclusions) && !Covered(a.db, rel, q) && q in a.st.store ==>
              AsksDeletion(event, a, q)
  {
    if AsksDeletion(event, a, q) {
      DeletedWasRecordedAndUnseen(event.cfg, a.st, event.walk, event.trace, q);
    }
    if !b.st.halted && !Covered(a.db, rel, q) && q in a.st.store {
      NothingComesFrom(event.cfg, a.st, event.walk, event.trace, q);
      UnseenRecordDeletedIff(event.cfg, a.st, event.walk, event.trace, q);
    }
  }

  /**
   What becomes of the files under the old base once the marker of a root migration is gone. The
   path is borne by no scanned file; the c-th event is the push that ended the migration. A later
   push that runs to its end asks for the deletion of the remote file if and only if deletions
   propagate, no child owns the path, no marker in force covers it, and a pull in between has
   recorded it - which a pull does for any path another client has changed, since it asks for no
   base - with nothing having dropped that record.
   */
  lemma {:induction false} DeletionAfterMigrationIff(rel: string, events: seq<Event>, worlds: seq<World>, c: nat, i: nat, q: string)
    requires Run(rel, events, worlds) && c < i < |events| && Unborne(events, q) && events[i].Pushed? && !worlds[i + 1].st.halted
    requires EndsMigration(rel, events[c], worlds[c], worlds[c + 1], q)
    requires NeverCovered(rel, worlds, c + 1, i, q)
    ensures AsksDeletion(events[i], worlds[i], q) <==>
            events[i].cfg.deletesRemotely && !IsExcludedByChild(q, events[i].cfg.exclusions) && !Covered(worlds[i].db, rel, q) &&
            RecordedBetween(Effects(events, worlds, q), c + 1, i)
  {
    ClearedMeansNoRecord(events[c].cfg, worlds[c].st, events[c].walk, events[c].trace, q);
    RecordedIff(rel, events, worlds, c + 1, i, q);
    DeletesIffRecorded(rel, events[i], worlds[i], worlds[i + 1], q);
  }

  /** A thing there was at first, or that has been recorded, and that nothing has dropped since. */
  predicate HeldAfter(effects: seq<Effect>, atFirst: bool, i: nat)
    requires i <= |effects|
  {
    if i == 0 then atFirst else effects[i - 1].Recorded? || (!effects[i - 1].Dropped? && HeldAfter(effects, atFirst, i - 1))
  }

  lemma {:induction false} HeldAfterIff(held: seq<bool>, effects: seq<Effect>, i: nat)
    requires i <= |effects| < |held| && forall k :: 0 <= k < i ==> FollowsAt(held, effects, k)
    ensures held[i] <==> HeldAfter(effects, held[0], i)
  {
    if i > 0 {
      HeldAfterIff(held, effects, i - 1);
      assert FollowsAt(held, effects, i - 1);
    }
  }

  /**
   Any run, any number of root changes: a push that runs to its end asks for the deletion of the
   remote file of a path left behind if and only if deletions propagate, no child owns the path, no
   marker in force covers it, and there is a record of it that nothing has dropped.
   */
  lemma {:induction false} DeletionIff(rel: string, events: seq<Event>, worlds: seq<World>, i: nat, q: string)
    requires Run(rel, events, worlds) && LeftBehind(events, q) && i < |events| && events[i].Pushed? && !worlds[i + 1].st.halted
    ensures AsksDeletion(events[i], worlds[i], q) <==>
            events[i].cfg.deletesRemotely && !IsExcludedByChild(q, events[i].cfg.exclusions) && !Covered(worlds[i].db, rel, q) &&
            HeldAfter(Effects(events, worlds, q), q in worlds[0].st.store, i)
  {
    forall k | 0 <= k < i ensures FollowsAt(Held(worlds, q), Effects(events, worlds, q), k) {
      StepAt(rel, events, worlds, k, q);
    }
    HeldAfterIff(Held(worlds, q), Effects(events, worlds, q), i);
    assert Happens(rel, events[i], worlds[i], worlds[i + 1]);
    DeletesIffRecorded(rel, events[i], worlds[i], worlds[i + 1], q);
  }

  /** The root is not changed again, and once the marker is gone no pull records the path. */
  ghost predicate NotPulledAgain(rel: string, events: seq<Event>, worlds: seq<World>, q: string)
    requires |worlds| > |events|
  {
    forall k :: 0 <= k < |events| ==> !events[k].RootChanged? && (!Covered(worlds[k].db, rel, q) ==> !Records(events[k], q))
  }

  lemma {:induction false} CoveredOrForgotten(rel: string, events: seq<Event>, worlds: seq<World>, i: nat, q: string)
    requires Run(rel, events, worlds) && i <= |events| && Unborne(events, q) && Covered(worlds[0].db, rel, q)
    requires NotPulledAgain(rel, events, worlds, q)
    ensures Covered(worlds[i].db, rel, q) || (MigrationOf(worlds[i].db, rel) == None && q !in worlds[i].st.store)
    decreases i
  {
    if i > 0 {
      var n := i - 1;
      CoveredOrForgotten(rel, events, worlds, n, q);
      assert Happens(rel, events[n], worlds[n], worlds[n + 1]);
      StepForgets(rel, events[n], worlds[n], worlds[n + 1], q);
    }
  }

  lemma {:induction false} StepForgets(rel: string, event: Event, a: World, b: World, q: string)
    requires Happens(rel, event, a, b) && (event.Pushed? ==> Find(event.cfg, event.walk, q).None?)
    requires !event.RootChanged? && (!Covered(a.db, rel, q) ==> !Records(event, q))
    requires Covered(a.db, rel, q) || (MigrationOf(a.db, rel) == None && q !in a.st.store)
    ensures Covered(b.db, rel, q) || (MigrationOf(b.db, rel) == None && q !in b.st.store)
  {
    if !Covered(a.db, rel, q) {
      UncoveredComesNotFrom(rel, event, a, b, q);
      RecordStep(rel, event, a, b, q);
    } else if event.Pushed? && MigrationOf(b.db, rel) == None {
      ClearedMeansNoRecord(event.cfg, a.st, event.walk, event.trace, q);
    }
  }

  /**
   In particular a root migration costs no remote file as long as the root is not changed again
   and no pull records a path of the old base after the marker is gone: no push - whether it
   migrates, fails, or comes later - asks for the deletion of such a path that no scanned file bears.
   */
  lemma {:induction false} MigrationDeletesNothing(rel: string, events: seq<Event>, worlds: seq<World>, i: nat, q: string)
    requires Run(rel, events, worlds) && i < |events| && events[i].Pushed? && Unborne(events, q)
    requires Covered(worlds[0].db, rel, q) && NotPulledAgain(rel, events, worlds, q)
    ensures !AsksDeletion(events[i], worlds[i], q)
  {
    CoveredOrForgotten(rel, events, worlds, i, q);
    DeletesIffRecorded(rel, events[i], worlds[i], worlds[i + 1], q);
  }

  // ---------------------------------------------------------------------------------------
  // A run where it happens
  // ---------------------------------------------------------------------------------------

  /** The remote folder of a relationship was changed from `/old/` to `/new/`. */
  const MOVED := SyncPathMigration("/old/", "/new/", "/home", "/home")

  /** Another client's file, still under the old base. */
  const EDITED := "/old/x"

  /** What a Lite push of the moved relationship looks like. */
  ghost predicate MovedConfig(cfg: Config) {
    cfg.migration == Some(MoveOf(MOVED)) && cfg.remoteBase == "/new/" && cfg.deletesRemotely && cfg.exclusions == []
  }

  lemma {:induction false} EditedNames()
    ensures IsUnderRemoteBase(EDITED, "/old/") && RemotePathOf(["old", "x"])[1] == 'n' && EDITED[1] == 'o'
  {
    assert TrimEndSlashes("/old/") == TrimEndSlashes("/old") == "/old" && TrimEndSlashes("/new/") == TrimEndSlashes("/new") == "/new";
    assert EDITED[..5] == "/old/";
  }

  function RemotePathOf(relative: Components): string { ComputeRemotePath(relative, "/new/") }

  /** Nothing yet: no file, no record. */
  function Nothing(): PushState {
    PushState(map[], map[], map[], [], [], NO_TALLY, false, Ledger({}, {}, {}, {}, [], []))
  }

  /** Just after the root change. */
  function Begun(rel: string): World { World(Nothing(), Applied(map[], BeginsMigration(rel, MOVED))) }

  /** The first push after the root change finds nothing to do. */
  lemma {:induction false} FirstPush(cfg: Config) returns (t: Trace)
    requires MovedConfig(cfg)
    ensures ValidTrace(cfg, Nothing(), [], t) && ClearsMarker(cfg, After(cfg, Nothing(), [], t))
    ensures After(cfg, Nothing(), [], t).store == map[] && After(cfg, Nothing(), [], t).ledger.overtaken == {}
  {
    t := EveryOrderGoesWell(cfg, Nothing(), [], []);
    var store := After(cfg, Nothing(), [], t).store;
    forall p ensures Get(store, p) == None {
      UnseenRecordIs(cfg, Nothing(), [], t, p);
    }
    assert forall p :: p in store ==> Get(store, p).Some?;
  }

  /** And it ends the migration. */
  lemma {:induction false} FirstHappens(rel: string, cfg: Config) returns (t: Trace, b: World)
    requires MovedConfig(cfg)
    ensures Happens(rel, Pushed(cfg, [], t), Begun(rel), b) && MigrationOf(b.db, rel) == None
    ensures b.st.store == map[] && b.st.ledger.overtaken == {}
  {
    t := FirstPush(cfg);
    b := World(After(cfg, Nothing(), [], t), Applied(Begun(rel).db, ClearsMigration(rel)));
  }

  /** A pull of the edited file, all going well. */
  function PullOfEdited(cfg: Pull.Config, hashes: seq<Digest>): Pull.Trace {
    Pull.Trace([Pull.FilePulled(true, Pull.Content(cfg, Pull.FileEntry(EDITED, hashes)), 0, 0, true)], [], [], [])
  }

  lemma {:induction false} EditedTraceIsValid(cfg: Pull.Config, local: Pull.PullState, hashes: seq<Digest>)
    requires PullMirror.TakesAll(cfg)
    ensures Pull.ValidTrace(cfg, local, PullMirror.Added([Pull.FileEntry(EDITED, hashes)]), PullOfEdited(cfg, hashes))
  {
    var e := Pull.FileEntry(EDITED, hashes);
    Pull.UnchangedHolds(cfg, local.nodes, local.nodes, e, true);
    Pull.WrittenWholeIff(cfg, local.nodes, local.nodes, e, true);
    assert [e][..0] == [] && PullOfEdited(cfg, hashes).files[..0] == [];
    assert PullMirror.Added([e]).Files() == [e] && PullMirror.Added([e]).Links() == [];
  }

  lemma {:induction false} EditedIsPulled(cfg: Pull.Config, local: Pull.PullState, hashes: seq<Digest>)
    requires PullMirror.TakesAll(cfg) && local.records == map[]
    ensures var e := Pull.FileEntry(EDITED, hashes);
            Pull.Sound(cfg, local, map[], map[EDITED := Pull.RemoteFile(hashes)], PullMirror.Added([e]), PullOfEdited(cfg, hashes)) &&
            Pull.After(cfg, local, PullMirror.Added([e]), PullOfEdited(cfg, hashes)).records == map[EDITED := Pull.FileRecord(e, Pull.Content(cfg, e), 0)] &&
            Pull.RecordAfter(cfg, None, PullMirror.Added([e]), PullOfEdited(cfg, hashes), EDITED).Some?
  {
    var e := Pull.FileEntry(EDITED, hashes);
    var diff := PullMirror.Added([e]);
    var trace := PullOfEdited(cfg, hashes);
    PullMirror.OneAdded(map[], e);
    EditedTraceIsValid(cfg, local, hashes);
    assert Pull.FilePaths([e]) == [EDITED] && Pull.LinkPaths([]) == [];
    assert Pull.ApplyFiles(cfg, local, [e], trace.files).records == map[EDITED := Pull.FileRecord(e, Pull.Content(cfg, e), 0)] by {
      assert [e][..0] == [] && trace.files[..0] == [];
      assert Pull.ApplyFiles(cfg, local, [e], trace.files) == Pull.FileStep(cfg, Pull.ApplyFiles(cfg, local, [], []), e, trace.files[0]);
    }
  }

  /** The folder after the pull: the file that came from outside the new base. */
  predicate WalkOfPulled(walk: seq<Entry>) {
    |walk| == 1 && walk[0].relative == ["old", "x"] && walk[0].kind.Regular? && walk[0].kind.mtime.Some? && walk[0].kind.hashed.Some?
  }

  /** The next push goes well, and bears the pulled file under its new name only. */
  lemma {:induction false} LastPush(cfg: Config, st: PushState, walk: seq<Entry>) returns (t: Trace)
    requires cfg.remoteBase == "/new/" && KeysArePaths(st.store) && st.ledger.overtaken == {}
    requires WalkOfPulled(walk)
    ensures CleanRun(cfg, st, walk, t) && Find(cfg, walk, EDITED).None?
  {
    EditedNames();
    var requests := ScanAll(cfg, st.store, walk).requests;
    assert walk[..0] == [];
    assert ScanAll(cfg, st.store, walk) == ScanStep(cfg, st.store, NO_SCAN, walk[0]);
    t := EveryOrderGoesWell(cfg, st, walk, requests);
    assert Find(cfg, walk[..0], EDITED).None?;
  }

  lemma {:induction false} PullHappens(rel: string, pullCfg: Pull.Config, local: Pull.PullState, hashes: seq<Digest>, b: World)
    returns (pulled: Event, c: World)
    requires PullMirror.TakesAll(pullCfg) && local.records == map[] && b.st.store == map[]
    ensures pulled.Pulled? && Happens(rel, pulled, b, c) && c.db == b.db
    ensures c.st == b.st.(store := c.st.store) && KeysArePaths(c.st.store) && EDITED in c.st.store
  {
    EditedIsPulled(pullCfg, local, hashes);
    var diff, trace := PullMirror.Added([Pull.FileEntry(EDITED, hashes)]), PullOfEdited(pullCfg, hashes);
    pulled := Pulled(pullCfg, local, map[], map[EDITED := Pull.RemoteFile(hashes)], diff, trace);
    c := World(b.st.(store := Pull.After(pullCfg, local, diff, trace).records), b.db);
  }

  lemma {:induction false} LastHappens(rel: string, cfg: Config, c: World, walk: seq<Entry>) returns (last: Event, d: World)
    requires MovedConfig(cfg) && MigrationOf(c.db, rel) == None && KeysArePaths(c.st.store) && EDITED in c.st.store && c.st.ledger.overtaken == {}
    requires WalkOfPulled(walk)
    ensures last.Pushed? && last.walk == walk && Happens(rel, last, c, d) && AsksDeletion(last, c, EDITED)
  {
    var next := cfg.(migration := None);
    var t := LastPush(next, c.st, walk);
    last := Pushed(next, walk, t);
    d := World(After(next, c.st, walk, t), c.db);
    DeletesIffRecorded(rel, last, c, d, EDITED);
  }

  lemma {:induction false} RunAppend(rel: string, events: seq<Event>, worlds: seq<World>, event: Event, world: World)
    requires Run(rel, events, worlds) && Happens(rel, event, worlds[|events|], world)
    ensures Run(rel, events + [event], worlds + [world])
  {
    forall i | 0 <= i <= |events| ensures Happens(rel, (events + [event])[i], (worlds + [world])[i], (worlds + [world])[i + 1]) {
      if i < |events| {
        assert Happens(rel, events[i], worlds[i], worlds[i + 1]);
      }
    }
  }

  lemma {:induction false} UpToEdit(rel: string, cfg: Config) returns (first: Event, b: World)
    requires MovedConfig(cfg)
    ensures first.Pushed? && Run(rel, [first] + [OthersWrote], [Begun(rel), b] + [b])
    ensures MigrationOf(b.db, rel) == None && b.st.store == map[] && b.st.ledger.overtaken == {}
  {
    var t;
    t, b := FirstHappens(rel, cfg);
    first := Pushed(cfg, [], t);
    assert Run(rel, [first], [Begun(rel), b]);
    RunAppend(rel, [first], [Begun(rel), b], OthersWrote, b);
  }

  lemma {:induction false} ThenPull(rel: string, events: seq<Event>, worlds: seq<World>, pullCfg: Pull.Config, local: Pull.PullState, hashes: seq<Digest>)
    returns (pulled: Event, c: World)
    requires PullMirror.TakesAll(pullCfg) && local.records == map[] && Run(rel, events, worlds)
    requires var b := worlds[|events|]; b.st.store == map[] && MigrationOf(b.db, rel) == None && b.st.ledger.overtaken == {}
    ensures pulled.Pulled? && Run(rel, events + [pulled], worlds + [c])
    ensures MigrationOf(c.db, rel) == None && KeysArePaths(c.st.store) && EDITED in c.st.store && c.st.ledger.overtaken == {}
  {
    pulled, c := PullHappens(rel, pullCfg, local, hashes, worlds[|events|]);
    RunAppend(rel, events, worlds, pulled, c);
  }

  lemma {:induction false} ThenPush(rel: string, events: seq<Event>, worlds: seq<World>, cfg: Config, walk: seq<Entry>)
    returns (last: Event, d: World)
    requires MovedConfig(cfg) && WalkOfPulled(walk) && Run(rel, events, worlds)
    requires var c := worlds[|events|];
             MigrationOf(c.db, rel) == None && KeysArePaths(c.st.store) && EDITED in c.st.store && c.st.ledger.overtaken == {}
    ensures Run(rel, events + [last], worlds + [d]) && AsksDeletion(last, worlds[|events|], EDITED)
  {
    last, d := LastHappens(rel, cfg, worlds[|events|], walk);
    RunAppend(rel, events, worlds, last, d);
  }

  /**
   A run of four events: the push that ends the migration, a change by another client under the
   old base, the pull of a cycle, and its push - which deletes the other client's file.
   */
  lemma {:induction false} EditUnderOldBaseIsDeleted(rel: string, cfg: Config, pullCfg: Pull.Config, local: Pull.PullState, hashes: seq<Digest>, walk: seq<Entry>)
    returns (first: Event, pulled: Event, last: Event, b: World, c: World, d: World)
    requires MovedConfig(cfg) && PullMirror.TakesAll(pullCfg) && local.records == map[] && WalkOfPulled(walk)
    ensures Run(rel, [first] + [OthersWrote] + [pulled] + [last], [Begun(rel), b] + [b] + [c] + [d])
    ensures first.Pushed? && pulled.Pulled? && AsksDeletion(last, c, EDITED)
  {
    first, b := UpToEdit(rel, cfg);
    pulled, c := ThenPull(rel, [first] + [OthersWrote], [Begun(rel), b] + [b], pullCfg, local, hashes);
    last, d := ThenPush(rel, [first] + [OthersWrote] + [pulled], [Begun(rel), b] + [b] + [c], cfg, walk);
  }

  // ---------------------------------------------------------------------------------------
  // A second root change
  // ---------------------------------------------------------------------------------------

  /** Once the root has been changed again, the first marker is gone for good. */
  lemma {:induction false} MarkerSince(rel: string, events: seq<Event>, worlds: seq<World>, r: nat, i: nat)
    requires Run(rel, events, worlds) && r < i <= |events| && events[r].RootChanged?
    requires forall k :: r < k < i ==> !events[k].RootChanged?
    ensures MigrationOf(worlds[i].db, rel) == None || MigrationOf(worlds[i].db, rel) == Some(events[r].migration)
    decreases i
  {
    assert Happens(rel, events[i - 1], worlds[i - 1], worlds[i]);
    if i - 1 > r {
      MarkerSince(rel, events, worlds, r, i - 1);
    }
  }

  /**
   A second root change before the first migration has ended: its marker overwrites the first. Up
   to then no push asks for the deletion of a path of the first old base, however it ends. Later
   a push that runs to its end does if and only if deletions propagate, no child owns the path, the
   second old base does not cover it or its migration has ended, and there is still a record - the
   one from the beginning, unless a cleanup has dropped it, or one that a pull has left since.
   */
  lemma {:induction false} SecondRootChangeDeletes(rel: string, events: seq<Event>, worlds: seq<World>, r: nat, i: nat, q: string)
    requires Run(rel, events, worlds) && LeftBehind(events, q) && r < i < |events| && events[r].RootChanged?
    requires events[i].Pushed? && !worlds[i + 1].st.halted
    requires forall k :: 0 <= k <= r ==> Covered(worlds[k].db, rel, q)
    requires forall k :: r < k < i ==> !events[k].RootChanged?
    ensures forall k :: 0 <= k < r ==> !AsksDeletion(events[k], worlds[k], q)
    ensures AsksDeletion(events[i], worlds[i], q) <==>
            events[i].cfg.deletesRemotely && !IsExcludedByChild(q, events[i].cfg.exclusions) &&
            (IsUnderRemoteBase(q, events[r].migration.oldRemotePath) ==> MigrationOf(worlds[i].db, rel) == None) &&
            HeldAfter(Effects(events, worlds, q), q in worlds[0].st.store, i)
  {
    forall k | 0 <= k < r ensures !AsksDeletion(events[k], worlds[k], q) {
      assert Happens(rel, events[k], worlds[k], worlds[k + 1]);
      if events[k].Pushed? {
        DeletesIffRecorded(rel, events[k], worlds[k], worlds[k + 1], q);
      }
    }
    MarkerSince(rel, events, worlds, r, i);
    DeletionIff(rel, events, worlds, i, q);
  }
}
