/** Facts about flushes that every argument about pushes needs: what they touch, and what they leave alone. */
module PushFacts {
  import opened Prelude
  import opened Chunks
  import opened Planning
  import opened Batching
  import opened MetadataStore
  import opened Push

  // ---------------------------------------------------------------------------------------
  // Files and records by path
  // ---------------------------------------------------------------------------------------

  /** The last file of that name. */
  function LastIn(files: seq<PendingPushFile>, path: string): Option<PendingPushFile> {
    if files == [] then None
    else if files[|files| - 1].remotePath == path then Some(files[|files| - 1])
    else LastIn(files[..|files| - 1], path)
  }

  lemma {:induction false} LastInAppend(files: seq<PendingPushFile>, file: PendingPushFile, q: string)
    ensures LastIn(files + [file], q) == if file.remotePath == q then Some(file) else LastIn(files, q)
  {
    assert (files + [file])[..|files|] == files;
  }

  lemma {:induction false} LastInIsThere(files: seq<PendingPushFile>, q: string)
    ensures LastIn(files, q).Some? <==> exists i :: 0 <= i < |files| && files[i].remotePath == q
    ensures LastIn(files, q).Some? ==> LastIn(files, q).value in files && LastIn(files, q).value.remotePath == q
  {
    if files != [] {
      LastInIsThere(files[..|files| - 1], q);
    }
  }

  lemma {:induction false} LastForAppend(a: seq<FileSyncMeta>, b: seq<FileSyncMeta>, q: string)
    ensures LastFor(a + b, q) == if LastFor(b, q).Some? then LastFor(b, q) else LastFor(a, q)
  {
    if b == [] {
      assert a + b == a;
    } else {
      var n := |b| - 1;
      assert (a + b)[..|a + b| - 1] == a + b[..n];
      LastForAppend(a, b[..n], q);
    }
  }

  lemma {:induction false} LastForOne(m: FileSyncMeta, q: string)
    ensures LastFor([m], q) == if m.path == q then Some(m) else None
  {
    assert [m][..0] == [];
  }

  lemma {:induction false} LastForMetas(files: seq<PendingPushFile>, q: string)
    ensures LastFor(Metas(files), q) == if LastIn(files, q).Some? then Some(FileMeta(LastIn(files, q).value)) else None
  {
    if files != [] {
      assert Metas(files)[..|files| - 1] == Metas(files[..|files| - 1]);
      LastForMetas(files[..|files| - 1], q);
    }
  }

  lemma {:induction false} LastForIsThere(metas: seq<FileSyncMeta>, q: string)
    ensures LastFor(metas, q).Some? ==> LastFor(metas, q).value in metas && LastFor(metas, q).value.path == q
  {
    if metas != [] {
      LastForIsThere(metas[..|metas| - 1], q);
    }
  }

  /** Files out of a batch. */
  ghost predicate OutOf(files: seq<PendingPushFile>, batch: seq<PendingPushFile>) {
    forall i :: 0 <= i < |files| ==> files[i] in batch
  }

  lemma {:induction false} GoodAreFiles(files: seq<PendingPushFile>, fates: seq<Fate>)
    requires |files| == |fates|
    ensures OutOf(Good(files, fates), files)
  {
    if files != [] {
      var n := |files| - 1;
      GoodAreFiles(files[..n], fates[..n]);
      var front := Good(files[..n], fates[..n]);
      forall i | 0 <= i < |Good(files, fates)| ensures Good(files, fates)[i] in files {
        if i < |front| {
          assert front[i] in files[..n];
        }
      }
    }
  }

  ghost predicate NoneNamed(files: seq<PendingPushFile>, q: string) {
    forall i :: 0 <= i < |files| ==> files[i].remotePath != q
  }

  /** Nothing of that name is under way. */
  ghost predicate Absent(st: PushState, q: string) {
    NoneNamed(st.batch, q) && forall i :: 0 <= i < |st.pending| ==> st.pending[i].path != q
  }

  // ---------------------------------------------------------------------------------------
  // What arrives
  // ---------------------------------------------------------------------------------------

  predicate Grew(a: Ledger, b: Ledger) {
    a.held <= b.held && a.suppressed <= b.suppressed && a.overtaken <= b.overtaken && a.misassembled == b.misassembled &&
    a.streams <= b.streams && a.ops <= b.ops
  }

  /** Uploads change the remote tree and the ledger, and no path they do not name. */
  lemma {:induction false} LandAllShape(st: PushState, files: seq<PendingPushFile>, contents: seq<Digest>)
    requires |files| == |contents|
    ensures var after := LandAll(st, files, contents);
            after == st.(remote := after.remote, ledger := st.ledger.(held := after.ledger.held, overtaken := after.ledger.overtaken)) &&
            Grew(st.ledger, after.ledger)
  {
    if files != [] {
      LandAllShape(st, files[..|files| - 1], contents[..|files| - 1]);
    }
  }

  lemma {:induction false} ArriveShape(st: PushState, files: seq<PendingPushFile>, d: Delivery)
    ensures var after := Arrive(st, files, d);
            after == st.(remote := after.remote,
                         ledger := st.ledger.(held := after.ledger.held, overtaken := after.ledger.overtaken, streams := after.ledger.streams)) &&
            Grew(st.ledger, after.ledger)
  {
    var contents := Arrivals(files, d);
    LandAllShape(st, files[..|contents|], contents);
  }

  /** With nothing overtaken, a landed file is where its hash says. */
  lemma {:induction false} LandAllAt(st: PushState, files: seq<PendingPushFile>, contents: seq<Digest>, q: string)
    requires |files| == |contents|
    ensures var after := LandAll(st, files, contents);
            (LastIn(files, q).None? ==> Get(after.remote, q) == Get(st.remote, q)) &&
            (after.ledger.overtaken == {} && LastIn(files, q).Some? ==>
              Get(after.remote, q) == Some(RFile(LastIn(files, q).value.contentHash)))
  {
    if files != [] {
      var n := |files| - 1;
      LandAllAt(st, files[..n], contents[..n], q);
      LandAllShape(st, files[..n], contents[..n]);
      LandFileAt(LandAll(st, files[..n], contents[..n]), files[n], contents[n], q);
    }
  }

  lemma {:induction false} LandFileAt(st: PushState, file: PendingPushFile, content: Digest, q: string)
    ensures var after := LandFile(st, file, content);
            (q != file.remotePath ==> Get(after.remote, q) == Get(st.remote, q)) &&
            (after.ledger.overtaken == {} ==>
              st.ledger.overtaken == {} && (q == file.remotePath ==> Get(after.remote, q) == Some(RFile(file.contentHash))))
  {
  }

  /** Every file of that name has this content. */
  ghost predicate AllAre(files: seq<PendingPushFile>, q: string, node: Option<RemoteNode>) {
    forall i :: 0 <= i < |files| && files[i].remotePath == q ==> node == Some(RFile(files[i].contentHash))
  }

  /** With nothing overtaken, what arrives under a name is the content queued under it, or nothing arrives. */
  lemma {:induction false} ArriveAt(st: PushState, files: seq<PendingPushFile>, d: Delivery, q: string, node: Option<RemoteNode>)
    requires Arrive(st, files, d).ledger.overtaken == {} && AllAre(files, q, node)
    ensures st.ledger.overtaken == {}
    ensures Get(Arrive(st, files, d).remote, q) == Get(st.remote, q) || (Get(Arrive(st, files, d).remote, q) == node && LastIn(files, q).Some?)
    ensures |Arrivals(files, d)| == |files| && LastIn(files, q).Some? ==> Get(Arrive(st, files, d).remote, q) == node
    ensures |Arrivals(files, d)| == |files| && LastIn(files, q).None? ==> Get(Arrive(st, files, d).remote, q) == Get(st.remote, q)
  {
    var contents := Arrivals(files, d);
    var front := files[..|contents|];
    LandAllShape(st, front, contents);
    LandAllAt(st, front, contents, q);
    LastInIsThere(front, q);
    LastInIsThere(files, q);
    assert |contents| == |files| ==> front == files;
  }

  lemma {:induction false} ArriveElsewhere(st: PushState, files: seq<PendingPushFile>, d: Delivery, q: string)
    requires NoneNamed(files, q)
    ensures Get(Arrive(st, files, d).remote, q) == Get(st.remote, q)
  {
    var contents := Arrivals(files, d);
    LandAllAt(st, files[..|contents|], contents, q);
    LastInIsThere(files[..|contents|], q);
  }

  // ---------------------------------------------------------------------------------------
  // File by file
  // ---------------------------------------------------------------------------------------

  function Settled(t: Tally): nat { t.pushed + t.skipped + t.failed }

  /** One file on its own: what it leaves alone, and how it is counted. */
  lemma {:induction false} IsolateFileShape(st: PushState, file: PendingPushFile, fate: Fate)
    ensures var after := IsolateFile(st, file, fate);
            after == st.(remote := after.remote, store := after.store, tally := after.tally, halted := after.halted, ledger := after.ledger) &&
            Grew(st.ledger, after.ledger) && after.ledger.ops == st.ledger.ops && (st.halted ==> after == st) &&
            after.tally.processed == st.tally.processed && after.tally.deleted == st.tally.deleted &&
            after.tally.errors - after.tally.failed == st.tally.errors - st.tally.failed &&
            (!after.halted ==> Settled(after.tally) + (if fate.FileLanded? then 1 else 0) == Settled(st.tally) + 1)
  {
    ArriveShape(st, [file], fate.delivery);
  }

  lemma {:induction false} IsolateShape(st: PushState, files: seq<PendingPushFile>, fates: seq<Fate>)
    requires |files| == |fates|
    ensures var after := Isolate(st, files, fates);
            after == st.(remote := after.remote, store := after.store, tally := after.tally, halted := after.halted, ledger := after.ledger) &&
            Grew(st.ledger, after.ledger) && after.ledger.ops == st.ledger.ops && (st.halted ==> after == st) &&
            after.tally.processed == st.tally.processed && after.tally.deleted == st.tally.deleted &&
            after.tally.errors - after.tally.failed == st.tally.errors - st.tally.failed &&
            (!after.halted ==> Settled(after.tally) + |Good(files, fates)| == Settled(st.tally) + |files|)
  {
    if files != [] {
      var n := |files| - 1;
      IsolateShape(st, files[..n], fates[..n]);
      IsolateFileShape(Isolate(st, files[..n], fates[..n]), files[n], fates[n]);
    }
  }

  /** Batch, memory and pending updates are none of its business. */
  lemma {:induction false} IsolateKeeps(st: PushState, files: seq<PendingPushFile>, fates: seq<Fate>)
    requires |files| == |fates|
    ensures var after := Isolate(st, files, fates); after.batch == st.batch && after.mem == st.mem && after.pending == st.pending
  {
    IsolateShape(st, files, fates);
  }

  lemma {:induction false} IsolateFileElsewhere(st: PushState, file: PendingPushFile, fate: Fate, q: string)
    requires file.remotePath != q
    ensures var after := IsolateFile(st, file, fate); Get(after.remote, q) == Get(st.remote, q) && Get(after.store, q) == Get(st.store, q)
  {
    ArriveShape(st, [file], fate.delivery);
    ArriveElsewhere(st, [file], fate.delivery, q);
  }

  lemma {:induction false} IsolateElsewhere(st: PushState, files: seq<PendingPushFile>, fates: seq<Fate>, q: string)
    requires |files| == |fates| && NoneNamed(files, q)
    ensures var after := Isolate(st, files, fates); Get(after.remote, q) == Get(st.remote, q) && Get(after.store, q) == Get(st.store, q)
  {
    if files != [] {
      var n := |files| - 1;
      IsolateElsewhere(st, files[..n], fates[..n], q);
      IsolateFileElsewhere(Isolate(st, files[..n], fates[..n]), files[n], fates[n], q);
    }
  }

  // ---------------------------------------------------------------------------------------
  // A whole flush
  // ---------------------------------------------------------------------------------------

  /** Nothing changes for a path of which nothing is under way. */
  ghost predicate Alike(before: PushState, after: PushState, q: string) {
    Absent(after, q) && Get(after.remote, q) == Get(before.remote, q) && Get(after.store, q) == Get(before.store, q) &&
    Get(after.mem, q) == Get(before.mem, q)
  }

  lemma {:induction false} RecordElsewhere(st: PushState, files: seq<PendingPushFile>, stored: bool, q: string)
    requires Absent(st, q) && NoneNamed(files, q)
    ensures var after := FlushPending(Record(st, files), stored);
            Alike(st, after, q) && after.batch == st.batch && after.ledger == st.ledger && after.remote == st.remote
  {
    LastForIsThere(Metas(files), q);
    WriteAllGets(st.mem, Metas(files), q);
    LastForIsThere(st.pending + Metas(files), q);
    WriteAllGets(st.store, st.pending + Metas(files), q);
  }

  lemma {:induction false} IsolateAllElsewhere(st: PushState, files: seq<PendingPushFile>, fates: seq<Fate>, stored: bool, q: string)
    requires |files| == |fates| && NoneNamed(files, q) && Absent(st, q)
    ensures Alike(st, IsolateAll(st, files, fates, stored), q)
  {
    IsolateShape(st, files, fates);
    IsolateElsewhere(st, files, fates, q);
    GoodAreFiles(files, fates);
    RecordElsewhere(Isolate(st, files, fates), Good(files, fates), stored, q);
  }

  lemma {:induction false} HandOverElsewhere(st: PushState, files: seq<PendingPushFile>, out: FlushOut, q: string)
    requires NoneNamed(files, q) && Absent(st, q)
    ensures Alike(st, HandOver(st, files, out), q)
  {
    var tried := Arrive(st, files, out.delivery);
    ArriveShape(st, files, out.delivery);
    ArriveElsewhere(st, files, out.delivery, q);
    if out.BatchLanded? {
      RecordElsewhere(tried, files, out.stored, q);
    } else if out.Isolated? && |out.fates| == |files| {
      IsolateAllElsewhere(tried, files, out.fates, out.stored, q);
    }
  }

  /** A flush leaves every path alone of which nothing is under way. */
  lemma {:induction false} FlushElsewhere(st: PushState, out: FlushOut, q: string)
    requires Absent(st, q)
    ensures Alike(st, Flush(st, out), q)
  {
    if !st.halted && st.batch != [] {
      HandOverElsewhere(Issue(st.(batch := []), Upload(st.batch)), st.batch, out, q);
    }
  }

  /** What a hand-over does to batch, operations and ledger. */
  lemma {:induction false} HandOverShape(st: PushState, files: seq<PendingPushFile>, out: FlushOut)
    ensures var after := HandOver(st, files, out);
            after.batch == st.batch && after.ledger.ops == st.ledger.ops && Grew(st.ledger, after.ledger) && (st.halted ==> after.halted)
  {
    ArriveShape(st, files, out.delivery);
    if out.Isolated? && |out.fates| == |files| {
      IsolateShape(Arrive(st, files, out.delivery), files, out.fates);
    }
  }

  /** A flush hands over the batch as it stands, if it is not empty, and asks for nothing else. */
  lemma {:induction false} FlushOps(st: PushState, out: FlushOut)
    ensures var after := Flush(st, out);
            after.ledger.ops == (if st.halted || st.batch == [] then st.ledger.ops else st.ledger.ops + [Upload(st.batch)]) &&
            (st.halted ==> after == st) && (!st.halted ==> after.batch == []) && Grew(st.ledger, after.ledger)
  {
    if !st.halted && st.batch != [] {
      HandOverShape(Issue(st.(batch := []), Upload(st.batch)), st.batch, out);
    }
  }

  // ---------------------------------------------------------------------------------------
  // The file phase
  // ---------------------------------------------------------------------------------------

  lemma {:induction false} EnqueueGrows(cfg: Config, st: PushState, file: PendingPushFile, out: FileOut)
    ensures Grew(st.ledger, Enqueue(cfg, st, file, out).ledger)
  {
    FlushOps(st, out.before);
    var ready := if FlushBefore(st.batch, file, cfg.blob) then Flush(st, out.before) else st;
    FlushOps(ready.(batch := ready.batch + [file]), out.now);
  }

  /** The batch stays as it is, nothing is handed over, and at most this rename is asked for. */
  ghost predicate LeavesBatch(before: PushState, after: PushState, r: Request) {
    after.batch == before.batch && after.ledger.suppressed == before.ledger.suppressed && after.ledger.overtaken == before.ledger.overtaken &&
    (after.ledger.ops == before.ledger.ops || (r.oldPath.Some? && after.ledger.ops == before.ledger.ops + [Rename(r.oldPath.value, r.path)])) &&
    Grew(before.ledger, after.ledger)
  }

  lemma {:induction false} MoveLeavesBatch(st: PushState, r: Request, end: MoveEnd)
    requires r.hashed.Some? && r.oldPath.Some?
    ensures LeavesBatch(st, MigratedFile(st, r, end), r)
  {
  }

  lemma {:induction false} AdoptionLeavesBatch(st: PushState, r: Request, end: AdoptEnd)
    requires r.hashed.Some? && r.oldPath.Some?
    ensures LeavesBatch(st, AdoptedFile(st, r, end), r)
  {
  }

  /** A file that is not queued. */
  lemma {:induction false} NotQueued(cfg: Config, st: PushState, r: Request, out: FileOut)
    requires r.hashed.Some? && !Decide(st.remote, st.mem, r, out).Queue?
    ensures LeavesBatch(st, Handle(cfg, st, r, out), r)
  {
    match Decide(st.remote, st.mem, r, out)
    case HashSkip =>
    case Migrate => MoveLeavesBatch(st, r, out.move);
    case Adopt => AdoptionLeavesBatch(st, r, out.adopt);
  }

  lemma {:induction false} FileStepGrows(cfg: Config, st: PushState, r: Request, out: FileOut)
    ensures Grew(st.ledger, FileStep(cfg, st, r, out).ledger)
    ensures !st.halted && r.hashed.Some? ==>
              Grew(st.ledger, Handle(cfg, st, r, out).ledger) && Grew(Handle(cfg, st, r, out).ledger, FileStep(cfg, st, r, out).ledger)
  {
    if !st.halted {
      var handled := if r.hashed.None? then st.(tally := Failed(st.tally)) else Handle(cfg, st, r, out);
      if r.hashed.Some? {
        if Decide(st.remote, st.mem, r, out).Queue? {
          EnqueueGrows(cfg, st, Candidate(r), out);
        } else {
          NotQueued(cfg, st, r, out);
        }
      }
      FlushOps(handled.(tally := Completed(handled.tally)), out.progress);
    }
  }

  lemma {:induction false} FilesGrow(cfg: Config, st: PushState, requests: seq<Request>, outs: seq<FileOut>)
    requires |requests| == |outs|
    ensures Grew(st.ledger, Files(cfg, st, requests, outs).ledger)
  {
    if requests != [] {
      var n := |requests| - 1;
      FilesGrow(cfg, st, requests[..n], outs[..n]);
      FileStepGrows(cfg, Files(cfg, st, requests[..n], outs[..n]), requests[n], outs[n]);
    }
  }
}
