/** Where records come from: over any run of pushes and pulls, each one is backed by the server. */
module PushJustified {
  import opened Prelude
  import opened Chunks
  import opened Planning
  import opened Batching
  import opened MetadataStore
  import opened Push
  import opened PushFacts
  import Pull

  /**
   The record says Synced, and the server has held that hash under that path - but for a
   suppressed 403, a direct upload overtaken by a change of the file, or a pull that put a file
   together from chunks that were no longer there.
   */
  predicate Backed(l: Ledger, m: FileSyncMeta) {
    m.status.Synced? &&
    ((m.path, m.contentHash) in l.held || (m.path, m.contentHash) in l.suppressed || (m.path, m.contentHash) in l.overtaken ||
     (m.path, m.contentHash) in l.misassembled)
  }

  ghost predicate BackedView(l: Ledger, view: View) {
    forall p :: p in view ==> view[p].path == p && Backed(l, view[p])
  }

  ghost predicate BackedAll(l: Ledger, metas: seq<FileSyncMeta>) {
    forall i :: 0 <= i < |metas| ==> Backed(l, metas[i])
  }

  /** The ledger knows everything the server holds. */
  ghost predicate KnowsRemote(l: Ledger, remote: Remote) {
    forall p :: p in remote ==> (p, remote[p].hash) in l.held
  }

  /** The file was handed over in a batch that went direct. */
  ghost predicate WentDirect(l: Ledger, pair: (string, Digest)) {
    exists i, j :: 0 <= i < |l.streams| && 0 <= j < |l.streams[i]| && pair == (l.streams[i][j].remotePath, l.streams[i][j].contentHash)
  }

  /** Only direct uploads are overtaken; a committed chunk list cannot be. */
  ghost predicate OnlyDirectOvertaken(l: Ledger) {
    forall pair :: pair in l.overtaken ==> WentDirect(l, pair)
  }

  ghost predicate Justified(st: PushState) {
    KnowsRemote(st.ledger, st.remote) && BackedView(st.ledger, st.store) && BackedView(st.ledger, st.mem) &&
    BackedAll(st.ledger, st.pending) && OnlyDirectOvertaken(st.ledger)
  }

  /** A step keeps every record backed and forgets nothing. */
  ghost predicate Kept(before: PushState, after: PushState) {
    Justified(after) && Grew(before.ledger, after.ledger)
  }

  ghost predicate RequestBacked(l: Ledger, r: Request) {
    r.stored.Some? ==> r.stored.value.path == r.path && Backed(l, r.stored.value)
  }

  /** Nothing that backs a record is forgotten. */
  predicate Wider(a: Ledger, b: Ledger) {
    a.held <= b.held && a.suppressed <= b.suppressed && a.overtaken <= b.overtaken && a.misassembled <= b.misassembled
  }

  lemma {:induction false} StillBacked(a: Ledger, b: Ledger, m: FileSyncMeta)
    requires Wider(a, b) && Backed(a, m)
    ensures Backed(b, m)
  {
  }

  lemma {:induction false} StillOnlyDirect(a: Ledger, b: Ledger)
    requires a.streams <= b.streams && OnlyDirectOvertaken(a) && b.overtaken == a.overtaken
    ensures OnlyDirectOvertaken(b)
  {
    forall pair | pair in b.overtaken ensures WentDirect(b, pair) {
      assert WentDirect(a, pair);
      var i, j :| 0 <= i < |a.streams| && 0 <= j < |a.streams[i]| && pair == (a.streams[i][j].remotePath, a.streams[i][j].contentHash);
      assert b.streams[i] == a.streams[i];
    }
  }

  lemma {:induction false} StillBackedView(a: Ledger, b: Ledger, view: View)
    requires Wider(a, b) && BackedView(a, view)
    ensures BackedView(b, view)
  {
  }

  lemma {:induction false} StillBackedAll(a: Ledger, b: Ledger, metas: seq<FileSyncMeta>)
    requires Wider(a, b) && BackedAll(a, metas)
    ensures BackedAll(b, metas)
  {
  }

  lemma {:induction false} WriteAllBacked(l: Ledger, view: View, metas: seq<FileSyncMeta>)
    requires BackedView(l, view) && BackedAll(l, metas)
    ensures BackedView(l, WriteAll(view, metas))
  {
    if metas != [] {
      WriteAllBacked(l, view, metas[..|metas| - 1]);
    }
  }

  // ---------------------------------------------------------------------------------------
  // Flushes
  // ---------------------------------------------------------------------------------------

  /** What landing a file keeps; only an overtaken direct upload is still to be explained. */
  ghost predicate Landing(before: PushState, after: PushState) {
    KnowsRemote(after.ledger, after.remote) && Grew(before.ledger, after.ledger) && after.store == before.store &&
    after.mem == before.mem && after.pending == before.pending && after.ledger.streams == before.ledger.streams
  }

  lemma {:induction false} LandFileBacks(st: PushState, file: PendingPushFile, content: Digest)
    requires KnowsRemote(st.ledger, st.remote)
    ensures Landing(st, LandFile(st, file, content)) && Backed(LandFile(st, file, content).ledger, FileMeta(file))
    ensures LandFile(st, file, content).ledger.overtaken <= st.ledger.overtaken + {(file.remotePath, file.contentHash)}
    ensures content == file.contentHash ==> LandFile(st, file, content).ledger.overtaken == st.ledger.overtaken
  {
  }

  function Pairs(files: seq<PendingPushFile>): set<(string, Digest)> {
    set f | f in files :: (f.remotePath, f.contentHash)
  }

  lemma {:induction false} LandAllBacks(st: PushState, files: seq<PendingPushFile>, contents: seq<Digest>)
    requires |files| == |contents| && KnowsRemote(st.ledger, st.remote)
    ensures Landing(st, LandAll(st, files, contents)) && BackedAll(LandAll(st, files, contents).ledger, Metas(files))
    ensures LandAll(st, files, contents).ledger.overtaken <= st.ledger.overtaken + Pairs(files)
    ensures contents == Declared(files) ==> LandAll(st, files, contents).ledger.overtaken == st.ledger.overtaken
  {
    if files != [] {
      var n := |files| - 1;
      var before := LandAll(st, files[..n], contents[..n]);
      LandAllBacks(st, files[..n], contents[..n]);
      LandFileBacks(before, files[n], contents[n]);
      var after := LandFile(before, files[n], contents[n]);
      forall i | 0 <= i < |files| ensures Backed(after.ledger, Metas(files)[i]) {
        if i < n {
          StillBacked(before.ledger, after.ledger, Metas(files[..n])[i]);
        }
      }
      assert Pairs(files[..n]) + {(files[n].remotePath, files[n].contentHash)} <= Pairs(files);
      if contents == Declared(files) {
        assert contents[..n] == Declared(files[..n]);
      }
    }
  }

  /** Whatever arrives of an upload; if all of it does, it backs the records to come. */
  lemma {:induction false} ArriveBacks(st: PushState, files: seq<PendingPushFile>, d: Delivery)
    requires Justified(st)
    ensures Kept(st, Arrive(st, files, d))
    ensures |Arrivals(files, d)| == |files| ==> BackedAll(Arrive(st, files, d).ledger, Metas(files))
  {
    var contents := Arrivals(files, d);
    var front := files[..|contents|];
    var landed := LandAll(st, front, contents);
    var after := Arrive(st, files, d);
    LandAllBacks(st, front, contents);
    ArrivalsExplained(st.ledger, landed.ledger, files, d);
    StillBackedView(st.ledger, after.ledger, st.store);
    StillBackedView(st.ledger, after.ledger, st.mem);
    StillBackedAll(st.ledger, after.ledger, st.pending);
    assert |contents| == |files| ==> front == files;
  }

  lemma {:induction false} ArrivalsExplained(before: Ledger, landed: Ledger, files: seq<PendingPushFile>, d: Delivery)
    requires OnlyDirectOvertaken(before) && Grew(before, landed) && landed.streams == before.streams
    requires var n := |Arrivals(files, d)|;
             landed.overtaken <= before.overtaken + Pairs(files[..n]) &&
             (Arrivals(files, d) == Declared(files[..n]) ==> landed.overtaken == before.overtaken)
    ensures OnlyDirectOvertaken(if d.Direct? then landed.(streams := landed.streams + [files]) else landed)
  {
    var after := if d.Direct? then landed.(streams := landed.streams + [files]) else landed;
    var n := |Arrivals(files, d)|;
    if d.Chunked? {
      assert Arrivals(files, d) == Declared(files[..n]);
      StillOnlyDirect(before, after);
    } else {
      StillOnlyDirect(before, before.(streams := after.streams));
      forall pair | pair in after.overtaken ensures WentDirect(after, pair) {
        if pair in before.overtaken {
          assert WentDirect(before.(streams := after.streams), pair);
        } else {
          var f :| f in files[..n] && pair == (f.remotePath, f.contentHash);
          var j :| 0 <= j < n && files[j] == f;
          assert after.streams[|before.streams|][j] == f;
        }
      }
    }
  }

  lemma {:induction false} IsolateFileBacks(st: PushState, file: PendingPushFile, fate: Fate)
    requires Justified(st)
    ensures Kept(st, IsolateFile(st, file, fate))
    ensures fate.FileLanded? && !IsolateFile(st, file, fate).halted ==> Backed(IsolateFile(st, file, fate).ledger, FileMeta(file))
  {
    if !st.halted {
      ArriveBacks(st, [file], fate.delivery);
      var tried := Arrive(st, [file], fate.delivery);
      assert Metas([file])[0] == FileMeta(file);
      if fate.FileForbidden? && fate.suppressed {
        SuppressionBacks(tried, file);
      }
    }
  }

  /** A 403 recorded as synced is backed by nothing but its own suppression. */
  lemma {:induction false} SuppressionBacks(st: PushState, file: PendingPushFile)
    requires Justified(st)
    ensures Kept(st, st.(store := st.store[file.remotePath := FileMeta(file)],
                         ledger := st.ledger.(suppressed := st.ledger.suppressed + {(file.remotePath, file.contentHash)})))
  {
    var ledger := st.ledger.(suppressed := st.ledger.suppressed + {(file.remotePath, file.contentHash)});
    StillBackedView(st.ledger, ledger, st.store);
    StillBackedView(st.ledger, ledger, st.mem);
    StillBackedAll(st.ledger, ledger, st.pending);
    StillOnlyDirect(st.ledger, ledger);
  }

  lemma {:induction false} IsolateBacks(st: PushState, files: seq<PendingPushFile>, fates: seq<Fate>)
    requires |files| == |fates| && Justified(st)
    ensures Kept(st, Isolate(st, files, fates))
    ensures !Isolate(st, files, fates).halted ==> BackedAll(Isolate(st, files, fates).ledger, Metas(Good(files, fates)))
  {
    if files != [] {
      var n := |files| - 1;
      var before := Isolate(st, files[..n], fates[..n]);
      IsolateBacks(st, files[..n], fates[..n]);
      IsolateFileBacks(before, files[n], fates[n]);
      IsolateFileShape(before, files[n], fates[n]);
      var after := IsolateFile(before, files[n], fates[n]);
      var front := Good(files[..n], fates[..n]);
      if !after.halted {
        forall i | 0 <= i < |Good(files, fates)| ensures Backed(after.ledger, Metas(Good(files, fates))[i]) {
          if i < |front| {
            StillBacked(before.ledger, after.ledger, Metas(front)[i]);
          }
        }
      }
    }
  }

  lemma {:induction false} RecordBacks(st: PushState, files: seq<PendingPushFile>)
    requires Justified(st) && BackedAll(st.ledger, Metas(files))
    ensures Kept(st, Record(st, files))
  {
    WriteAllBacked(st.ledger, st.mem, Metas(files));
  }

  lemma {:induction false} FlushPendingBacks(st: PushState, stored: bool)
    requires Justified(st)
    ensures Kept(st, FlushPending(st, stored))
  {
    WriteAllBacked(st.ledger, st.store, st.pending);
  }

  lemma {:induction false} HandOverBacks(st: PushState, files: seq<PendingPushFile>, out: FlushOut)
    requires Justified(st)
    ensures Kept(st, HandOver(st, files, out))
  {
    var tried := Arrive(st, files, out.delivery);
    ArriveBacks(st, files, out.delivery);
    if out.BatchLanded? && |Arrivals(files, out.delivery)| == |files| {
      RecordBacks(tried, files);
      FlushPendingBacks(Record(tried, files), out.stored);
    } else if out.Isolated? && |out.fates| == |files| {
      IsolateBacks(tried, files, out.fates);
      var isolated := Isolate(tried, files, out.fates);
      if !isolated.halted {
        RecordBacks(isolated, Good(files, out.fates));
        FlushPendingBacks(Record(isolated, Good(files, out.fates)), out.stored);
      }
    }
  }

  lemma {:induction false} FlushBacks(st: PushState, out: FlushOut)
    requires Justified(st)
    ensures Kept(st, Flush(st, out))
  {
    if !st.halted && st.batch != [] {
      IssueBacks(st.(batch := []), Upload(st.batch));
      HandOverBacks(Issue(st.(batch := []), Upload(st.batch)), st.batch, out);
    }
  }

  // ---------------------------------------------------------------------------------------
  // Steps
  // ---------------------------------------------------------------------------------------

  /** A hash skip inherits the backing of the record it replaces. */
  lemma {:induction false} HashSkipBacks(st: PushState, r: Request)
    requires Justified(st) && RequestBacked(st.ledger, r) && r.hashed.Some? && r.stored.Some?
    requires r.stored.value.contentHash == r.hashed.value.hash
    ensures Kept(st, HashSkipped(st, r))
  {
    assert Backed(st.ledger, MetaOf(r));
  }

  lemma {:induction false} WithRecordBacked(l: Ledger, view: View, m: FileSyncMeta, out: set<string>)
    requires BackedView(l, view) && Backed(l, m)
    ensures BackedView(l, (view - out)[m.path := m]) && BackedView(l, view - out)
  {
  }

  lemma {:induction false} MigratedBacks(st: PushState, r: Request, end: MoveEnd)
    requires Justified(st) && r.hashed.Some? && r.oldPath.Some?
    ensures Kept(st, MigratedFile(st, r, end))
  {
    var after := MigratedFile(st, r, end);
    StillOnlyDirect(st.ledger, after.ledger);
    StillBackedView(st.ledger, after.ledger, st.store);
    StillBackedView(st.ledger, after.ledger, st.mem);
    StillBackedAll(st.ledger, after.ledger, st.pending);
    if !end.RenameRefused? {
      WithRecordBacked(after.ledger, st.store, MetaOf(r), {r.oldPath.value});
      WithRecordBacked(after.ledger, st.mem, MetaOf(r), {r.oldPath.value});
    }
  }

  lemma {:induction false} AdoptedBacks(st: PushState, r: Request, end: AdoptEnd)
    requires Justified(st) && r.hashed.Some? && r.oldPath.Some? && HasContent(st.remote, r.path, r.hashed.value.hash)
    ensures Kept(st, AdoptedFile(st, r, end))
  {
    assert Backed(st.ledger, MetaOf(r));
    WithRecordBacked(st.ledger, st.store, MetaOf(r), {r.oldPath.value});
    WithRecordBacked(st.ledger, st.mem, MetaOf(r), {r.oldPath.value});
    WithRecordBacked(st.ledger, st.store, MetaOf(r), {});
    WithRecordBacked(st.ledger, st.mem, MetaOf(r), {});
    assert st.store - {} == st.store && st.mem - {} == st.mem;
  }

  lemma {:induction false} EnqueueBacks(cfg: Config, st: PushState, file: PendingPushFile, out: FileOut)
    requires Justified(st)
    ensures Kept(st, Enqueue(cfg, st, file, out))
  {
    FlushBacks(st, out.before);
    var ready := if FlushBefore(st.batch, file, cfg.blob) then Flush(st, out.before) else st;
    if !ready.halted {
      FlushBacks(ready.(batch := ready.batch + [file]), out.now);
    }
  }

  lemma {:induction false} CompleteBacks(st: PushState, out: FlushOut)
    requires Justified(st)
    ensures Kept(st, Complete(st, out))
  {
    FlushBacks(st.(tally := Completed(st.tally)), out);
  }

  lemma {:induction false} HandleBacks(cfg: Config, st: PushState, r: Request, out: FileOut)
    requires Justified(st) && RequestBacked(st.ledger, r) && r.hashed.Some?
    ensures Kept(st, Handle(cfg, st, r, out))
  {
    match Decide(st.remote, st.mem, r, out)
    case HashSkip => HashSkipBacks(st, r);
    case Migrate => MigratedBacks(st, r, out.move);
    case Adopt => AdoptedBacks(st, r, out.adopt);
    case Queue => EnqueueBacks(cfg, st, Candidate(r), out);
  }

  lemma {:induction false} FileStepBacks(cfg: Config, st: PushState, r: Request, out: FileOut)
    requires Justified(st) && RequestBacked(st.ledger, r)
    ensures Kept(st, FileStep(cfg, st, r, out))
  {
    if !st.halted {
      if r.hashed.None? {
        CompleteBacks(st.(tally := Failed(st.tally)), out.progress);
      } else {
        HandleBacks(cfg, st, r, out);
        CompleteBacks(Handle(cfg, st, r, out), out.progress);
      }
    }
  }

  lemma {:induction false} FilesBack(cfg: Config, st: PushState, requests: seq<Request>, outs: seq<FileOut>)
    requires |requests| == |outs| && Justified(st) && forall i :: 0 <= i < |requests| ==> RequestBacked(st.ledger, requests[i])
    ensures Kept(st, Files(cfg, st, requests, outs))
  {
    if requests != [] {
      var n := |requests| - 1;
      FilesBack(cfg, st, requests[..n], outs[..n]);
      var before := Files(cfg, st, requests[..n], outs[..n]);
      if requests[n].stored.Some? {
        StillBacked(st.ledger, before.ledger, requests[n].stored.value);
      }
      FileStepBacks(cfg, before, requests[n], outs[n]);
    }
  }

  lemma {:induction false} RecordLinkBacks(st: PushState, task: LinkTask)
    requires Justified(st) && (task.path, task.hash) in st.ledger.held
    ensures Kept(st, RecordLink(st, task))
  {
    assert Backed(st.ledger, LinkMeta(task));
  }

  lemma {:induction false} SetRemoteBacks(st: PushState, path: string, node: RemoteNode)
    requires Justified(st)
    ensures Kept(st, SetRemote(st, path, node))
  {
    var after := SetRemote(st, path, node);
    StillOnlyDirect(st.ledger, after.ledger);
    StillBackedView(st.ledger, after.ledger, st.store);
    StillBackedView(st.ledger, after.ledger, st.mem);
    StillBackedAll(st.ledger, after.ledger, st.pending);
  }

  lemma {:induction false} IssueBacks(st: PushState, op: Op)
    requires Justified(st)
    ensures Kept(st, Issue(st, op))
  {
    StillOnlyDirect(st.ledger, Issue(st, op).ledger);
    StillBackedView(st.ledger, Issue(st, op).ledger, st.store);
    StillBackedView(st.ledger, Issue(st, op).ledger, st.mem);
    StillBackedAll(st.ledger, Issue(st, op).ledger, st.pending);
  }

  lemma {:induction false} LinkStepBacks(cfg: Config, st: PushState, task: LinkTask, out: LinkOut)
    requires Justified(st)
    ensures Kept(st, LinkStep(cfg, st, task, out))
  {
    if !st.halted {
      var processed := st.(tally := Completed(st.tally));
      if cfg.mode.Lite? && out.inspected && Get(st.remote, task.path) == Some(RLink(task.hash)) {
        RecordLinkBacks(processed.(tally := Skipped(processed.tally)), task);
      } else {
        IssueBacks(processed, PutLink(task.path));
        var asked := Issue(processed, PutLink(task.path));
        SetRemoteBacks(asked, task.path, RLink(task.hash));
        RecordLinkBacks(SetRemote(asked, task.path, RLink(task.hash)).(tally := PushedOne(processed.tally)), task);
      }
    }
  }

  lemma {:induction false} LinksBack(cfg: Config, st: PushState, tasks: seq<LinkTask>, outs: seq<LinkOut>)
    requires |tasks| == |outs| && Justified(st)
    ensures Kept(st, Links(cfg, st, tasks, outs))
  {
    if tasks != [] {
      var n := |tasks| - 1;
      LinksBack(cfg, st, tasks[..n], outs[..n]);
      LinkStepBacks(cfg, Links(cfg, st, tasks[..n], outs[..n]), tasks[n], outs[n]);
    }
  }

  lemma {:induction false} DeleteStepBacks(st: PushState, path: string, out: DeleteOut)
    requires Justified(st)
    ensures Kept(st, DeleteStep(st, path, out))
  {
    if !st.halted {
      IssueBacks(st, Delete(path));
    }
  }

  lemma {:induction false} DeletionsBack(st: PushState, paths: seq<string>, outs: seq<DeleteOut>)
    requires |paths| == |outs| && Justified(st)
    ensures Kept(st, Deletions(st, paths, outs))
  {
    if paths != [] {
      var n := |paths| - 1;
      DeletionsBack(st, paths[..n], outs[..n]);
      DeleteStepBacks(Deletions(st, paths[..n], outs[..n]), paths[n], outs[n]);
    }
  }

  lemma {:induction false} ScanRequestsBacked(cfg: Config, l: Ledger, mem: View, walk: seq<Entry>, i: nat)
    requires BackedView(l, mem) && i < |ScanAll(cfg, mem, walk).requests|
    ensures RequestBacked(l, ScanAll(cfg, mem, walk).requests[i])
  {
    if walk != [] {
      var front := ScanAll(cfg, mem, walk[..|walk| - 1]);
      if i < |front.requests| {
        ScanRequestsBacked(cfg, l, mem, walk[..|walk| - 1], i);
      }
    }
  }

  /** A push, wherever it ends, leaves every record backed. */
  lemma {:induction false} PushBacks(cfg: Config, st: PushState, walk: seq<Entry>, t: Trace)
    requires ValidTrace(cfg, st, walk, t)
    requires KnowsRemote(st.ledger, st.remote) && BackedView(st.ledger, st.store) && OnlyDirectOvertaken(st.ledger)
    ensures Kept(st, After(cfg, st, walk, t))
  {
    var start := AfterScan(cfg, st, walk);
    var requests := ScanAll(cfg, st.store, walk).requests;
    forall i | 0 <= i < |t.requests| ensures RequestBacked(st.ledger, t.requests[i]) {
      assert t.requests[i] in multiset(t.requests) && t.requests[i] in multiset(requests);
      var j :| 0 <= j < |requests| && requests[j] == t.requests[i];
      ScanRequestsBacked(cfg, st.ledger, st.store, walk, j);
    }
    FilesBack(cfg, start, t.requests, t.fileOuts);
    var files := Files(cfg, start, t.requests, t.fileOuts);
    FlushBacks(files, t.lastFlush);
    FlushPendingBacks(Flush(files, t.lastFlush), t.pendingStored);
    LinksBack(cfg, AfterFiles(cfg, st, walk, t), t.links, t.linkOuts);
    FlushPendingBacks(Links(cfg, AfterFiles(cfg, st, walk, t), t.links, t.linkOuts), t.linksStored);
    DeletionsBack(AfterCleanup(cfg, st, walk, t), t.deletions, t.deleteOuts);
  }

  // ---------------------------------------------------------------------------------------
  // Pulls
  // ---------------------------------------------------------------------------------------

  /** The server holds what the snapshot shows. */
  ghost predicate KnowsSnapshot(cfg: Pull.Config, l: Ledger, snap: Pull.Snapshot) {
    forall p :: p in snap ==>
      (p, if snap[p].RemoteFile? then ContentHash(ContentOf(cfg.blob.chunkHashPrefix, snap[p].chunks)) else snap[p].hash) in l.held
  }

  /** What a pull records of files that did not come out as their chunks say. */
  function Misassembled(cfg: Pull.Config, diff: Pull.Diff, trace: Pull.Trace): set<(string, Digest)>
    requires |trace.files| == |diff.Files()|
  {
    set i | 0 <= i < |diff.Files()| && trace.files[i].FilePulled? && trace.files[i].recorded &&
            trace.files[i].bytes != Pull.Content(cfg, diff.Files()[i]) ::
      (diff.Files()[i].path, ContentHash(trace.files[i].bytes))
  }

  /** The entry was pulled and recorded, and a chunk it reused was no longer in its place when its turn came. */
  predicate ReusedStale(cfg: Pull.Config, st: Pull.PullState, diff: Pull.Diff, trace: Pull.Trace, i: nat)
    requires i < |diff.Files()| == |trace.files|
  {
    trace.files[i].FilePulled? && trace.files[i].recorded && !Pull.ReusesHoldAt(cfg, st, diff, trace, i)
  }

  /**
   A pull records a wrong file exactly for such entries; and then an earlier entry has left a file
   on the way to the old file, be it the old file itself or one behind a symlink.
   */
  lemma {:induction false} MisassembledIff(cfg: Pull.Config, st: Pull.PullState, diff: Pull.Diff, trace: Pull.Trace, pair: (string, Digest))
    requires Pull.ValidTrace(cfg, st, diff, trace)
    ensures pair in Misassembled(cfg, diff, trace) <==>
            exists i :: 0 <= i < |diff.Files()| && ReusedStale(cfg, st, diff, trace, i) && pair == (diff.Files()[i].path, ContentHash(trace.files[i].bytes))
    ensures forall i :: 0 <= i < |diff.Files()| && ReusedStale(cfg, st, diff, trace, i) ==>
              !Pull.WayIsClear(cfg, st.nodes, diff.Files(), trace.files, i)
  {
    forall i | 0 <= i < |diff.Files()| && trace.files[i].FilePulled?
      ensures trace.files[i].bytes == Pull.Content(cfg, diff.Files()[i]) <==> Pull.ReusesHoldAt(cfg, st, diff, trace, i)
      ensures Pull.WayIsClear(cfg, st.nodes, diff.Files(), trace.files, i) ==> Pull.ReusesHoldAt(cfg, st, diff, trace, i)
    {
      Pull.PulledWholeIff(cfg, st, diff, trace, i);
    }
  }

  /** The record names a hash the server holds, or one the ledger knows for wrong. */
  predicate FileRecordBacked(l: Ledger, e: Pull.FileEntry, out: Pull.FileOutcome) {
    out.FilePulled? && out.recorded ==>
      (e.path, ContentHash(out.bytes)) in l.held || (e.path, ContentHash(out.bytes)) in l.misassembled
  }

  lemma {:induction false} PulledFilesBacked(cfg: Pull.Config, l: Ledger, st: Pull.PullState, items: seq<Pull.FileEntry>, outs: seq<Pull.FileOutcome>)
    requires |items| == |outs| && BackedView(l, st.records)
    requires forall i :: 0 <= i < |items| ==> FileRecordBacked(l, items[i], outs[i])
    ensures BackedView(l, Pull.ApplyFiles(cfg, st, items, outs).records)
  {
    if items != [] {
      var n := |items| - 1;
      PulledFilesBacked(cfg, l, st, items[..n], outs[..n]);
      assert FileRecordBacked(l, items[n], outs[n]);
    }
  }

  lemma {:induction false} PulledLinksBacked(cfg: Pull.Config, l: Ledger, st: Pull.PullState, items: seq<Pull.LinkEntry>, outs: seq<Pull.LinkOutcome>)
    requires |items| == |outs| && BackedView(l, st.records)
    requires forall i :: 0 <= i < |items| ==> (items[i].path, items[i].hash) in l.held
    ensures BackedView(l, Pull.ApplyLinks(cfg, st, items, outs).records)
  {
    if items != [] {
      var n := |items| - 1;
      PulledLinksBacked(cfg, l, st, items[..n], outs[..n]);
    }
  }

  lemma {:induction false} PulledDeletesBacked(cfg: Pull.Config, l: Ledger, st: Pull.PullState, items: seq<string>, outs: seq<Pull.DeleteOutcome>)
    requires |items| == |outs| && BackedView(l, st.records)
    ensures BackedView(l, Pull.ApplyFileDeletes(cfg, st, items, outs).records)
    ensures BackedView(l, Pull.ApplyLinkDeletes(cfg, st, items, outs).records)
  {
    if items != [] {
      var n := |items| - 1;
      PulledDeletesBacked(cfg, l, st, items[..n], outs[..n]);
    }
  }

  /** The ledger after a pull. */
  function WithMisassembled(l: Ledger, cfg: Pull.Config, diff: Pull.Diff, trace: Pull.Trace): Ledger
    requires |trace.files| == |diff.Files()|
  {
    l.(misassembled := l.misassembled + Misassembled(cfg, diff, trace))
  }

  lemma {:induction false} PullBacks(cfg: Pull.Config, l: Ledger, st: Pull.PullState, before: Pull.Snapshot, now: Pull.Snapshot,
                                     diff: Pull.Diff, trace: Pull.Trace)
    requires Pull.Sound(cfg, st, before, now, diff, trace)
    requires KnowsSnapshot(cfg, l, now) && BackedView(l, st.records)
    ensures BackedView(WithMisassembled(l, cfg, diff, trace), Pull.After(cfg, st, diff, trace).records)
  {
    var after := WithMisassembled(l, cfg, diff, trace);
    StillBackedView(l, after, st.records);
    forall i | 0 <= i < |diff.Files()| ensures FileRecordBacked(after, diff.Files()[i], trace.files[i]) {
      assert Get(now, diff.Files()[i].path) == Some(Pull.RemoteFile(diff.Files()[i].chunkHashes));
    }
    forall i | 0 <= i < |diff.Links()| ensures (diff.Links()[i].path, diff.Links()[i].hash) in after.held {
      assert Get(now, diff.Links()[i].path) == Some(Pull.RemoteLink(diff.Links()[i].hash, diff.Links()[i].target));
    }
    PulledFilesBacked(cfg, after, st, diff.Files(), trace.files);
    PulledDeletesBacked(cfg, after, Pull.AfterFiles(cfg, st, diff, trace), Pull.FilesDeletedHere(cfg, diff), trace.fileDeletes);
    PulledLinksBacked(cfg, after, Pull.AfterFileDeletes(cfg, st, diff, trace), diff.Links(), trace.links);
    PulledDeletesBacked(cfg, after, Pull.AfterLinks(cfg, st, diff, trace), Pull.LinksDeletedHere(cfg, diff), trace.linkDeletes);
  }

  // ---------------------------------------------------------------------------------------
  // Any run of anything
  // ---------------------------------------------------------------------------------------

  /** One thing that happens to a relationship. */
  datatype Event =
    | Pushes(cfg: Config, walk: seq<Entry>, trace: Trace)
    | Pulls(pullCfg: Pull.Config, st: Pull.PullState, before: Pull.Snapshot, now: Pull.Snapshot, diff: Pull.Diff, pullTrace: Pull.Trace)
    | OthersWrite                             // other clients change the remote tree
    | StateCleared                            // `clear_relationship_state`

  ghost predicate Happens(event: Event, a: PushState, b: PushState) {
    match event
    case Pushes(cfg, walk, trace) => ValidTrace(cfg, a, walk, trace) && b == After(cfg, a, walk, trace)
    case Pulls(cfg, st, before, now, diff, trace) =>
      Pull.Sound(cfg, st, before, now, diff, trace) && st.records == a.store && KnowsSnapshot(cfg, a.ledger, now) &&
      b == a.(store := Pull.After(cfg, st, diff, trace).records, ledger := WithMisassembled(a.ledger, cfg, diff, trace))
    case OthersWrite => a.ledger.held <= b.ledger.held && b.ledger == a.ledger.(held := b.ledger.held) && KnowsRemote(b.ledger, b.remote) && b.store == a.store
    case StateCleared => b == a.(store := map[])
  }

  lemma {:induction false} EventBacks(event: Event, a: PushState, b: PushState)
    requires Happens(event, a, b) && KnowsRemote(a.ledger, a.remote) && BackedView(a.ledger, a.store) && OnlyDirectOvertaken(a.ledger)
    ensures KnowsRemote(b.ledger, b.remote) && BackedView(b.ledger, b.store) && OnlyDirectOvertaken(b.ledger)
  {
    match event
    case Pushes(cfg, walk, trace) => PushBacks(cfg, a, walk, trace);
    case Pulls(cfg, st, before, now, diff, trace) =>
      PullBacks(cfg, a.ledger, st, before, now, diff, trace);
      StillOnlyDirect(a.ledger, b.ledger);
    case OthersWrite =>
      StillBackedView(a.ledger, b.ledger, a.store);
      StillOnlyDirect(a.ledger, b.ledger);
    case StateCleared =>
  }

  ghost predicate Run(events: seq<Event>, states: seq<PushState>) {
    |states| == |events| + 1 && forall i {:trigger events[i]} :: 0 <= i < |events| ==> Happens(events[i], states[i], states[i + 1])
  }

  /** Some pull of the run recorded this hash for a file it put together wrongly. */
  ghost predicate PulledWrong(events: seq<Event>, pair: (string, Digest)) {
    exists k :: 0 <= k < |events| && WrongIn(events[k], pair)
  }

  ghost predicate WrongIn(event: Event, pair: (string, Digest)) {
    event.Pulls? && |event.pullTrace.files| == |event.diff.Files()| && pair in Misassembled(event.pullCfg, event.diff, event.pullTrace)
  }

  /**
   Over any run, from an empty store, every stored record is `Synced`, sits under its own path,
   and names a hash the server has held under that path. There are three exceptions: a 403 whose
   retry is suppressed, a file that changed while its batch was uploaded directly, and a file
   that a pull put together over one it had replaced itself. A chunked commit is no exception.
   */
  lemma {:induction false} EveryRecordIsJustified(events: seq<Event>, states: seq<PushState>)
    requires Run(events, states)
    requires states[0].store == map[] && KnowsRemote(states[0].ledger, states[0].remote)
    requires states[0].ledger.overtaken == {} && states[0].ledger.misassembled == {}
    ensures var last := states[|events|];
            KnowsRemote(last.ledger, last.remote) && BackedView(last.ledger, last.store) && OnlyDirectOvertaken(last.ledger) &&
            forall pair :: pair in last.ledger.misassembled ==> PulledWrong(events, pair)
    decreases |events|
  {
    if events != [] {
      var n := |events| - 1;
      assert Run(events[..n], states[..n + 1]);
      EveryRecordIsJustified(events[..n], states[..n + 1]);
      EventBacks(events[n], states[n], states[n + 1]);
      forall pair | pair in states[n + 1].ledger.misassembled ensures PulledWrong(events, pair) {
        WrongFrom(events, states[n], states[n + 1], pair);
      }
    }
  }

  lemma {:induction false} WrongFrom(events: seq<Event>, a: PushState, b: PushState, pair: (string, Digest))
    requires events != [] && Happens(events[|events| - 1], a, b) && pair in b.ledger.misassembled
    requires KnowsRemote(a.ledger, a.remote) && BackedView(a.ledger, a.store) && OnlyDirectOvertaken(a.ledger)
    requires pair in a.ledger.misassembled ==> PulledWrong(events[..|events| - 1], pair)
    ensures PulledWrong(events, pair)
  {
    var n := |events| - 1;
    if pair in a.ledger.misassembled {
      var k :| 0 <= k < n && WrongIn(events[..n][k], pair);
      assert WrongIn(events[k], pair);
    } else {
      match events[n]
      case Pushes(cfg, walk, trace) => PushBacks(cfg, a, walk, trace);
      case Pulls(cfg, st, before, now, diff, trace) => assert WrongIn(events[n], pair);
      case OthersWrite =>
      case StateCleared =>
    }
  }

  /** A 403 is recorded as `Synced`, though the server never held the file. */
  lemma {:induction false} ForbiddenIsRecordedSynced(st: PushState, file: PendingPushFile)
    requires (file.remotePath, file.contentHash) !in st.ledger.held && !st.halted
    ensures var after := IsolateFile(st, file, FileForbidden(Chunked(false), true));
            Get(after.store, file.remotePath) == Some(FileMeta(file)) && FileMeta(file).status == Synced &&
            (file.remotePath, file.contentHash) !in after.ledger.held &&
            after.tally.failed == st.tally.failed + 1
  {
  }
}
