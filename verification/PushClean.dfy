/**
 A push without failures, path by path. Batching, flush points and the order in which files get
 ready disappear: what one step means for one path is decided by that path alone.
 */
module PushClean {
  import opened Prelude
  import opened Chunks
  import opened Planning
  import opened Batching
  import opened MetadataStore
  import opened Push
  import opened PushFacts

  /** No error so far, and no direct upload overtaken by a change of its file. */
  predicate Clean(st: PushState) {
    !st.halted && st.tally.errors == 0 && st.ledger.overtaken == {}
  }

  // ---------------------------------------------------------------------------------------
  // What is under way for a path
  // ---------------------------------------------------------------------------------------

  predicate InFlight(st: PushState, q: string) {
    LastIn(st.batch, q).Some? || LastFor(st.pending, q).Some?
  }

  /** The remote node once the batch has landed. */
  function VRemote(st: PushState, q: string): Option<RemoteNode> {
    if LastIn(st.batch, q).Some? then Some(RFile(LastIn(st.batch, q).value.contentHash)) else Get(st.remote, q)
  }

  /** The stored record once batch and pending updates are through. */
  function VRecord(st: PushState, q: string): Option<FileSyncMeta> {
    if LastIn(st.batch, q).Some? then Some(FileMeta(LastIn(st.batch, q).value))
    else if LastFor(st.pending, q).Some? then LastFor(st.pending, q)
    else Get(st.store, q)
  }

  /** The record in memory once the batch has landed. */
  function VMem(st: PushState, q: string): Option<FileSyncMeta> {
    if LastIn(st.batch, q).Some? then Some(FileMeta(LastIn(st.batch, q).value)) else Get(st.mem, q)
  }

  /** Nothing about the path differs, now or once everything under way is through. */
  predicate SameAt(a: PushState, b: PushState, q: string) {
    VRemote(a, q) == VRemote(b, q) && VRecord(a, q) == VRecord(b, q) && VMem(a, q) == VMem(b, q)
  }

  // ---------------------------------------------------------------------------------------
  // Flushes
  // ---------------------------------------------------------------------------------------

  /** A file that goes through on its own, without an error anywhere. */
  lemma {:induction false} IsolateFileAt(st: PushState, file: PendingPushFile, fate: Fate)
    requires Clean(IsolateFile(st, file, fate))
    ensures var after := IsolateFile(st, file, fate);
            Clean(st) && fate.FileLanded? && after == st.(remote := after.remote, ledger := after.ledger) &&
            after.remote == st.remote[file.remotePath := RFile(file.contentHash)]
  {
    ArriveShape(st, [file], fate.delivery);
    var contents := Arrivals([file], fate.delivery);
    if |contents| == 1 {
      assert [file][..0] == [] && contents[..0] == [] && [file][..|contents|] == [file];
      assert LandAll(st, [file], contents) == LandFile(LandAll(st, [], []), file, contents[0]);
    }
  }

  lemma {:induction false} IsolateAt(st: PushState, files: seq<PendingPushFile>, fates: seq<Fate>, q: string)
    requires |files| == |fates| && Clean(Isolate(st, files, fates))
    ensures var after := Isolate(st, files, fates);
            Clean(st) && Good(files, fates) == files && after == st.(remote := after.remote, ledger := after.ledger) &&
            Get(after.remote, q) == (if LastIn(files, q).Some? then Some(RFile(LastIn(files, q).value.contentHash)) else Get(st.remote, q))
  {
    if files != [] {
      var n := |files| - 1;
      IsolateFileAt(Isolate(st, files[..n], fates[..n]), files[n], fates[n]);
      IsolateAt(st, files[..n], fates[..n], q);
      assert files == files[..n] + [files[n]];
    }
  }

  lemma {:induction false} IsolateClean(st: PushState, files: seq<PendingPushFile>, fates: seq<Fate>)
    requires |files| == |fates| && Clean(Isolate(st, files, fates))
    ensures Clean(st)
  {
    if files != [] {
      var n := |files| - 1;
      IsolateFileAt(Isolate(st, files[..n], fates[..n]), files[n], fates[n]);
      IsolateClean(st, files[..n], fates[..n]);
    }
  }

  /** Landing the whole batch and writing its records is what was under way. */
  lemma {:induction false} RecordedAt(st: PushState, landed: PushState, files: seq<PendingPushFile>, stored: bool, q: string)
    requires !FlushPending(Record(landed, files), stored).halted
    requires landed == st.(batch := [], remote := landed.remote, ledger := landed.ledger)
    requires files == st.batch != []
    requires Get(landed.remote, q) == if LastIn(files, q).Some? then Some(RFile(LastIn(files, q).value.contentHash)) else Get(st.remote, q)
    ensures SameAt(st, FlushPending(Record(landed, files), stored), q)
    ensures !InFlight(FlushPending(Record(landed, files), stored), q)
  {
    var recorded := Record(landed, files);
    LastForMetas(files, q);
    WriteAllGets(landed.mem, Metas(files), q);
    LastForAppend(st.pending, Metas(files), q);
    WriteAllGets(recorded.store, recorded.pending, q);
  }

  lemma {:induction false} ArrivedClean(st: PushState, files: seq<PendingPushFile>, d: Delivery, q: string)
    requires Clean(Arrive(st, files, d))
    ensures Clean(st)
    ensures LastIn(files, q).None? ==> Get(Arrive(st, files, d).remote, q) == Get(st.remote, q)
    ensures LastIn(files, q).Some? && |Arrivals(files, d)| == |files| ==>
              Get(Arrive(st, files, d).remote, q) == Some(RFile(LastIn(files, q).value.contentHash))
  {
    var contents := Arrivals(files, d);
    var front := files[..|contents|];
    ArriveShape(st, files, d);
    LandAllAt(st, front, contents, q);
    LastInIsThere(files, q);
    LastInIsThere(front, q);
    assert |contents| == |files| ==> front == files;
  }

  /** The refused batch went through file by file. */
  lemma {:induction false} IsolatedAt(st: PushState, tried: PushState, files: seq<PendingPushFile>, fates: seq<Fate>, stored: bool, q: string)
    requires |files| == |fates| && files == st.batch != [] && Clean(IsolateAll(tried, files, fates, stored))
    requires tried == st.(batch := [], remote := tried.remote, ledger := tried.ledger)
    requires LastIn(files, q).None? ==> Get(tried.remote, q) == Get(st.remote, q)
    ensures SameAt(st, IsolateAll(tried, files, fates, stored), q) && !InFlight(IsolateAll(tried, files, fates, stored), q)
  {
    var isolated := Isolate(tried, files, fates);
    assert Clean(isolated);
    IsolateAt(tried, files, fates, q);
    RecordedAt(st, isolated, files, stored, q);
  }

  lemma {:induction false} HandOverAt(st: PushState, files: seq<PendingPushFile>, out: FlushOut, q: string)
    requires files == st.batch != [] && !st.halted
    requires Clean(HandOver(Issue(st.(batch := []), Upload(files)), files, out))
    ensures var after := HandOver(Issue(st.(batch := []), Upload(files)), files, out);
            Clean(st) && SameAt(st, after, q) && !InFlight(after, q)
  {
    var handed := Issue(st.(batch := []), Upload(files));
    var tried := Arrive(handed, files, out.delivery);
    ArriveShape(handed, files, out.delivery);
    if out.Isolated? {
      assert Clean(Isolate(tried, files, out.fates));
      IsolateClean(tried, files, out.fates);
      ArrivedClean(handed, files, out.delivery, q);
      IsolatedAt(st, tried, files, out.fates, out.stored, q);
    } else {
      ArrivedClean(handed, files, out.delivery, q);
      RecordedAt(st, tried, files, out.stored, q);
    }
  }

  lemma {:induction false} FlushAt(st: PushState, out: FlushOut, q: string)
    requires Clean(Flush(st, out))
    ensures Clean(st) && Flush(st, out).batch == [] && SameAt(st, Flush(st, out), q)
    ensures InFlight(Flush(st, out), q) ==> InFlight(st, q)
  {
    FlushOps(st, out);
    if st.batch != [] {
      HandOverAt(st, st.batch, out, q);
    }
  }

  lemma {:induction false} CompleteAt(st: PushState, out: FlushOut, q: string)
    requires Clean(Complete(st, out))
    ensures Clean(st) && SameAt(st, Complete(st, out), q)
    ensures InFlight(Complete(st, out), q) ==> InFlight(st, q)
  {
    var completed := st.(tally := Completed(st.tally));
    if completed.tally.processed % 100 == 0 {
      FlushAt(completed, out, q);
    }
  }

  lemma {:induction false} FlushPendingAt(st: PushState, stored: bool, q: string)
    requires Clean(FlushPending(st, stored)) && st.batch == []
    ensures Clean(st) && FlushPending(st, stored).pending == [] && FlushPending(st, stored).batch == []
    ensures Get(FlushPending(st, stored).remote, q) == VRemote(st, q) && Get(FlushPending(st, stored).store, q) == VRecord(st, q)
    ensures Get(FlushPending(st, stored).mem, q) == VMem(st, q)
  {
    WriteAllGets(st.store, st.pending, q);
  }

  // ---------------------------------------------------------------------------------------
  // One prepared file
  // ---------------------------------------------------------------------------------------

  /** A request looks at its old name only if its own name has no record. */
  predicate Asks(r: Request, q: string) { r.stored.None? && r.oldPath == Some(q) }

  predicate Touches(r: Request, q: string) { r.path == q || Asks(r, q) }

  /** The server is asked about the old name: there is a record to carry over, and it names this content. */
  predicate AsksServer(store: View, r: Request) {
    r.hashed.Some? && r.stored.None? && Movable(store, r, r.hashed.value.hash)
  }

  predicate HashSame(r: Request) {
    r.hashed.Some? && r.stored.Some? && r.stored.value.contentHash == r.hashed.value.hash
  }

  /** Enqueueing a file puts it under way and changes nothing else. */
  lemma {:induction false} EnqueueAt(cfg: Config, st: PushState, file: PendingPushFile, out: FileOut, q: string)
    requires Clean(Enqueue(cfg, st, file, out))
    ensures var after := Enqueue(cfg, st, file, out);
            Clean(st) &&
            (q != file.remotePath ==> SameAt(st, after, q) && (InFlight(after, q) ==> InFlight(st, q))) &&
            (q == file.remotePath ==>
              VRemote(after, q) == Some(RFile(file.contentHash)) && VRecord(after, q) == VMem(after, q) == Some(FileMeta(file)))
  {
    var ready := if FlushBefore(st.batch, file, cfg.blob) then Flush(st, out.before) else st;
    var queued := ready.(batch := ready.batch + [file]);
    if FlushNow(queued.batch, cfg.blob) {
      FlushAt(queued, out.now, q);
    }
    if FlushBefore(st.batch, file, cfg.blob) {
      FlushAt(st, out.before, q);
    }
    LastInAppend(ready.batch, file, q);
  }

  lemma {:induction false} HashSkippedAt(st: PushState, r: Request, q: string)
    requires r.hashed.Some? && r.stored.Some? && Clean(HashSkipped(st, r)) && q != r.path
    ensures Clean(st) && SameAt(st, HashSkipped(st, r), q)
    ensures InFlight(HashSkipped(st, r), q) ==> InFlight(st, q)
  {
    LastForOne(MetaOf(r), q);
    LastForAppend(st.pending, [MetaOf(r)], q);
  }

  lemma {:induction false} MigratedAt(st: PushState, r: Request, end: MoveEnd, q: string)
    requires r.hashed.Some? && r.oldPath.Some? && Clean(MigratedFile(st, r, end)) && q != r.path
    ensures var after := MigratedFile(st, r, end);
            Clean(st) && after.batch == st.batch && after.pending == st.pending &&
            Get(after.remote, q) == (if q == r.oldPath.value then None else Get(st.remote, q)) &&
            Get(after.store, q) == (if q == r.oldPath.value then None else Get(st.store, q)) &&
            Get(after.mem, q) == (if q == r.oldPath.value then None else Get(st.mem, q))
  {
  }

  lemma {:induction false} AdoptedAt(st: PushState, r: Request, end: AdoptEnd, q: string)
    requires r.hashed.Some? && r.oldPath.Some? && Clean(AdoptedFile(st, r, end)) && q != r.path
    ensures var after := AdoptedFile(st, r, end);
            Clean(st) && after.batch == st.batch && after.pending == st.pending && after.remote == st.remote &&
            Get(after.store, q) == (if q == r.oldPath.value && q in st.mem then None else Get(st.store, q)) &&
            Get(after.mem, q) == (if q == r.oldPath.value then None else Get(st.mem, q))
  {
  }

  /** What handling a prepared file means for its own path. */
  lemma {:induction false} HandleOwn(cfg: Config, st: PushState, r: Request, out: FileOut)
    requires r.hashed.Some? && Clean(Handle(cfg, st, r, out))
    requires !InFlight(st, r.path) && Get(st.mem, r.path) == Get(st.store, r.path) == r.stored
    requires r.stored.Some? ==> r.stored.value.path == r.path
    ensures Clean(st)
    ensures var after := Handle(cfg, st, r, out);
            VRecord(after, r.path) == VMem(after, r.path) == Some(MetaOf(r)) &&
            VRemote(after, r.path) == if HashSame(r) then Get(st.remote, r.path) else Some(RFile(r.hashed.value.hash))
  {
    match Decide(st.remote, st.mem, r, out)
    case HashSkip =>
      LastForOne(MetaOf(r), r.path);
      LastForAppend(st.pending, [MetaOf(r)], r.path);
    case Queue => EnqueueAt(cfg, st, Candidate(r), out, r.path);
    case _ =>
  }

  /** The verified move of this file would apply to the path. */
  predicate Match(r: Request, record: Option<FileSyncMeta>, node: Option<RemoteNode>) {
    r.hashed.Some? && r.stored.None? && r.oldPath.Some? && r.oldPath.value != r.path &&
    record.Some? && record.value.contentHash == r.hashed.value.hash && node == Some(RFile(r.hashed.value.hash))
  }

  /** What handling a prepared file means for its old path. */
  lemma {:induction false} HandleOld(cfg: Config, st: PushState, r: Request, out: FileOut)
    requires r.hashed.Some? && Clean(Handle(cfg, st, r, out)) && r.oldPath.Some? && r.oldPath.value != r.path && r.stored.None?
    requires var q := r.oldPath.value; !InFlight(st, q) && Get(st.mem, q) == Get(st.store, q)
    ensures Clean(st)
    ensures var q := r.oldPath.value;
            var after := Handle(cfg, st, r, out);
            !InFlight(after, q) && Get(after.mem, q) == Get(after.store, q) &&
            (Get(after.remote, q) == None || Get(after.remote, q) == Get(st.remote, q)) &&
            (Get(after.store, q) == None || Get(after.store, q) == Get(st.store, q)) &&
            ((AsksServer(st.mem, r) ==> out.sourceAnswered) ==>
              Get(after.remote, q) == if Match(r, Get(st.mem, q), Get(st.remote, q)) then None else Get(st.remote, q))
  {
    var q := r.oldPath.value;
    match Decide(st.remote, st.mem, r, out)
    case HashSkip => HashSkippedAt(st, r, q);
    case Migrate => MigratedAt(st, r, out.move, q);
    case Adopt => AdoptedAt(st, r, out.adopt, q);
    case Queue => EnqueueAt(cfg, st, Candidate(r), out, q);
  }

  /** Every other path is left alone. */
  lemma {:induction false} HandleOther(cfg: Config, st: PushState, r: Request, out: FileOut, q: string)
    requires r.hashed.Some? && Clean(Handle(cfg, st, r, out)) && !Touches(r, q)
    ensures Clean(st) && SameAt(st, Handle(cfg, st, r, out), q)
    ensures InFlight(Handle(cfg, st, r, out), q) ==> InFlight(st, q)
  {
    match Decide(st.remote, st.mem, r, out)
    case HashSkip => HashSkippedAt(st, r, q);
    case Migrate => MigratedAt(st, r, out.move, q);
    case Adopt => AdoptedAt(st, r, out.adopt, q);
    case Queue => EnqueueAt(cfg, st, Candidate(r), out, q);
  }

  lemma {:induction false} StepIsHandle(cfg: Config, st: PushState, r: Request, out: FileOut, q: string)
    requires Clean(FileStep(cfg, st, r, out))
    ensures r.hashed.Some? && Clean(st) && Clean(Handle(cfg, st, r, out))
    ensures SameAt(Handle(cfg, st, r, out), FileStep(cfg, st, r, out), q)
    ensures InFlight(FileStep(cfg, st, r, out), q) ==> InFlight(Handle(cfg, st, r, out), q)
  {
    if r.hashed.None? {
      CompleteAt(st.(tally := Failed(st.tally)), out.progress, q);
    } else {
      CompleteAt(Handle(cfg, st, r, out), out.progress, q);
      HandleClean(cfg, st, r, out);
    }
  }

  lemma {:induction false} HandleClean(cfg: Config, st: PushState, r: Request, out: FileOut)
    requires r.hashed.Some? && Clean(Handle(cfg, st, r, out))
    ensures Clean(st)
  {
    if Decide(st.remote, st.mem, r, out).Queue? {
      EnqueueAt(cfg, st, Candidate(r), out, "");
    }
  }

  // ---------------------------------------------------------------------------------------
  // All prepared files
  // ---------------------------------------------------------------------------------------

  /** Two requests do not touch each other's paths. */
  predicate Apart(a: Request, b: Request) {
    a.path != b.path && !Asks(a, b.path) && !Asks(b, a.path) &&
    (a.stored.None? && b.stored.None? && a.oldPath.Some? ==> a.oldPath != b.oldPath)
  }

  ghost predicate AllApart(requests: seq<Request>) {
    forall i, j :: 0 <= i < |requests| && 0 <= j < |requests| && i != j ==> Apart(requests[i], requests[j])
  }

  /** Nobody but the i-th request touches the path. */
  ghost predicate LeftAlone(requests: seq<Request>, i: nat, q: string) {
    forall j :: 0 <= j < |requests| && j != i ==> !Touches(requests[j], q)
  }

  lemma {:induction false} ApartLeavesAlone(requests: seq<Request>, i: nat)
    requires AllApart(requests) && i < |requests|
    ensures LeftAlone(requests, i, requests[i].path)
    ensures requests[i].stored.None? && requests[i].oldPath.Some? ==> LeftAlone(requests, i, requests[i].oldPath.value)
  {
    forall j | 0 <= j < |requests| && j != i
      ensures !Touches(requests[j], requests[i].path)
      ensures requests[i].stored.None? && requests[i].oldPath.Some? ==> !Touches(requests[j], requests[i].oldPath.value)
    {
      assert Apart(requests[j], requests[i]);
    }
  }

  /** Every verification of an old name that was asked for was answered. */
  ghost predicate AllAnswered(store: View, requests: seq<Request>, outs: seq<FileOut>)
    requires |requests| == |outs|
  {
    forall i :: 0 <= i < |outs| && AsksServer(store, requests[i]) ==> outs[i].sourceAnswered
  }

  /** The state before the first file: nothing under way, memory as the store has it. */
  ghost predicate Fresh(st: PushState) {
    st.mem == st.store && st.pending == [] && st.batch == [] && forall p :: p in st.store ==> st.store[p].path == p
  }

  lemma {:induction false} FilesOther(cfg: Config, st: PushState, requests: seq<Request>, outs: seq<FileOut>, q: string)
    requires |requests| == |outs| && Clean(Files(cfg, st, requests, outs)) && Fresh(st)
    requires forall i :: 0 <= i < |requests| ==> !Touches(requests[i], q)
    ensures var after := Files(cfg, st, requests, outs);
            Clean(st) && !InFlight(after, q) &&
            Get(after.remote, q) == Get(st.remote, q) && Get(after.mem, q) == Get(after.store, q) == Get(st.store, q)
  {
    if requests != [] {
      var n := |requests| - 1;
      var before := Files(cfg, st, requests[..n], outs[..n]);
      StepIsHandle(cfg, before, requests[n], outs[n], q);
      FilesOther(cfg, st, requests[..n], outs[..n], q);
      HandleOther(cfg, before, requests[n], outs[n], q);
    }
  }

  /** The path and its record as the request's own step leaves them. */
  ghost predicate OwnSettled(st: PushState, after: PushState, r: Request) {
    r.hashed.Some? && VRecord(after, r.path) == VMem(after, r.path) == Some(MetaOf(r)) &&
    VRemote(after, r.path) == if HashSame(r) then Get(st.remote, r.path) else Some(RFile(r.hashed.value.hash))
  }

  lemma {:induction false} FilesOwnLast(cfg: Config, st: PushState, requests: seq<Request>, outs: seq<FileOut>)
    requires |requests| == |outs| > 0 && Clean(Files(cfg, st, requests, outs)) && Fresh(st)
    requires requests[|requests| - 1].stored == Get(st.store, requests[|requests| - 1].path)
    requires LeftAlone(requests, |requests| - 1, requests[|requests| - 1].path)
    ensures OwnSettled(st, Files(cfg, st, requests, outs), requests[|requests| - 1])
  {
    var n := |requests| - 1;
    var r := requests[n];
    var before := Files(cfg, st, requests[..n], outs[..n]);
    StepIsHandle(cfg, before, r, outs[n], r.path);
    FilesOther(cfg, st, requests[..n], outs[..n], r.path);
    HandleOwn(cfg, before, r, outs[n]);
  }

  /** A request's own path once everything under way is through. */
  lemma {:induction false} FilesOwn(cfg: Config, st: PushState, requests: seq<Request>, outs: seq<FileOut>, i: nat)
    requires |requests| == |outs| && Clean(Files(cfg, st, requests, outs)) && Fresh(st) && i < |requests|
    requires requests[i].stored == Get(st.store, requests[i].path) && LeftAlone(requests, i, requests[i].path)
    ensures OwnSettled(st, Files(cfg, st, requests, outs), requests[i])
  {
    var n := |requests| - 1;
    if i == n {
      FilesOwnLast(cfg, st, requests, outs);
    } else {
      var before := Files(cfg, st, requests[..n], outs[..n]);
      StepIsHandle(cfg, before, requests[n], outs[n], requests[i].path);
      FilesOwn(cfg, st, requests[..n], outs[..n], i);
      HandleOther(cfg, before, requests[n], outs[n], requests[i].path);
    }
  }

  /**
   A request's old path: with the query answered it is gone from the server exactly when the
   verified move applied; its record is the old one or none, in the store and in memory alike.
   */
  ghost predicate OldSettled(st: PushState, after: PushState, r: Request, out: FileOut)
    requires r.oldPath.Some?
  {
    var q := r.oldPath.value;
    !InFlight(after, q) && Get(after.mem, q) == Get(after.store, q) &&
    (Get(after.store, q) == None || Get(after.store, q) == Get(st.store, q)) &&
    ((AsksServer(st.store, r) ==> out.sourceAnswered) ==>
      Get(after.remote, q) == if Match(r, Get(st.store, q), Get(st.remote, q)) then None else Get(st.remote, q))
  }

  lemma {:induction false} FilesOldLast(cfg: Config, st: PushState, requests: seq<Request>, outs: seq<FileOut>)
    requires |requests| == |outs| > 0 && Clean(Files(cfg, st, requests, outs)) && Fresh(st)
    requires var r := requests[|requests| - 1];
             r.oldPath.Some? && r.oldPath.value != r.path && r.stored.None? && LeftAlone(requests, |requests| - 1, r.oldPath.value)
    ensures OldSettled(st, Files(cfg, st, requests, outs), requests[|requests| - 1], outs[|requests| - 1])
  {
    var n := |requests| - 1;
    var r := requests[n];
    var q := r.oldPath.value;
    var before := Files(cfg, st, requests[..n], outs[..n]);
    StepIsHandle(cfg, before, r, outs[n], q);
    FilesOther(cfg, st, requests[..n], outs[..n], q);
    HandleOld(cfg, before, r, outs[n]);
  }

  lemma {:induction false} FilesOld(cfg: Config, st: PushState, requests: seq<Request>, outs: seq<FileOut>, i: nat)
    requires |requests| == |outs| && Clean(Files(cfg, st, requests, outs)) && Fresh(st) && i < |requests|
    requires requests[i].oldPath.Some? && requests[i].oldPath.value != requests[i].path && requests[i].stored.None?
    requires LeftAlone(requests, i, requests[i].oldPath.value)
    ensures OldSettled(st, Files(cfg, st, requests, outs), requests[i], outs[i])
  {
    var n := |requests| - 1;
    if i == n {
      FilesOldLast(cfg, st, requests, outs);
    } else {
      var q := requests[i].oldPath.value;
      var before := Files(cfg, st, requests[..n], outs[..n]);
      StepIsHandle(cfg, before, requests[n], outs[n], q);
      FilesOld(cfg, st, requests[..n], outs[..n], i);
      HandleOther(cfg, before, requests[n], outs[n], q);
    }
  }

  /** A path that no file bears: whoever looks back to it, memory and store agree, and no record appears. */
  lemma {:induction false} FilesUnborne(cfg: Config, st: PushState, requests: seq<Request>, outs: seq<FileOut>, q: string)
    requires |requests| == |outs| && Clean(Files(cfg, st, requests, outs)) && Fresh(st)
    requires forall i :: 0 <= i < |requests| ==> requests[i].path != q
    ensures var after := Files(cfg, st, requests, outs);
            !InFlight(after, q) && Get(after.mem, q) == Get(after.store, q) &&
            (Get(after.store, q) == None || Get(after.store, q) == Get(st.store, q))
  {
    if requests != [] {
      var n := |requests| - 1;
      var before := Files(cfg, st, requests[..n], outs[..n]);
      StepIsHandle(cfg, before, requests[n], outs[n], q);
      FilesUnborne(cfg, st, requests[..n], outs[..n], q);
      if Asks(requests[n], q) {
        HandleOld(cfg, before, requests[n], outs[n]);
      } else {
        HandleOther(cfg, before, requests[n], outs[n], q);
      }
    }
  }

  // ---------------------------------------------------------------------------------------
  // Symlinks and deletions
  // ---------------------------------------------------------------------------------------

  lemma {:induction false} LinkStepAt(cfg: Config, st: PushState, task: LinkTask, out: LinkOut, q: string)
    requires Clean(LinkStep(cfg, st, task, out)) && st.batch == []
    ensures var after := LinkStep(cfg, st, task, out);
            Clean(st) && after.batch == [] && after.tally.errors == st.tally.errors &&
            VRemote(after, q) == (if q == task.path then Some(RLink(task.hash)) else VRemote(st, q)) &&
            VRecord(after, q) == (if q == task.path then Some(LinkMeta(task)) else VRecord(st, q)) &&
            VMem(after, q) == (if q == task.path then Some(LinkMeta(task)) else VMem(st, q))
  {
    LastForOne(LinkMeta(task), q);
    LastForAppend(st.pending, [LinkMeta(task)], q);
  }

  ghost predicate DistinctLinks(tasks: seq<LinkTask>) {
    forall i, j :: 0 <= i < j < |tasks| ==> tasks[i].path != tasks[j].path
  }

  lemma {:induction false} LinksOther(cfg: Config, st: PushState, tasks: seq<LinkTask>, outs: seq<LinkOut>, q: string)
    requires |tasks| == |outs| && Clean(Links(cfg, st, tasks, outs)) && st.batch == []
    requires forall i :: 0 <= i < |tasks| ==> tasks[i].path != q
    ensures Clean(st) && Links(cfg, st, tasks, outs).batch == [] && SameAt(st, Links(cfg, st, tasks, outs), q)
  {
    if tasks != [] {
      var n := |tasks| - 1;
      var before := Links(cfg, st, tasks[..n], outs[..n]);
      LinksCleanFront(cfg, before, tasks[n], outs[n]);
      LinksOther(cfg, st, tasks[..n], outs[..n], q);
      LinkStepAt(cfg, before, tasks[n], outs[n], q);
    }
  }

  lemma {:induction false} LinksOwn(cfg: Config, st: PushState, tasks: seq<LinkTask>, outs: seq<LinkOut>, i: nat)
    requires |tasks| == |outs| && Clean(Links(cfg, st, tasks, outs)) && st.batch == [] && DistinctLinks(tasks) && i < |tasks|
    ensures var after := Links(cfg, st, tasks, outs);
            var q := tasks[i].path;
            after.batch == [] && VRemote(after, q) == Some(RLink(tasks[i].hash)) &&
            VRecord(after, q) == VMem(after, q) == Some(LinkMeta(tasks[i]))
  {
    var n := |tasks| - 1;
    var q := tasks[i].path;
    var before := Links(cfg, st, tasks[..n], outs[..n]);
    LinksCleanFront(cfg, before, tasks[n], outs[n]);
    if i < n {
      LinksOwn(cfg, st, tasks[..n], outs[..n], i);
      assert q != tasks[n].path;
    } else {
      assert forall j :: 0 <= j < n ==> tasks[j].path != q;
      LinksOther(cfg, st, tasks[..n], outs[..n], q);
    }
    LinkStepAt(cfg, before, tasks[n], outs[n], q);
  }

  lemma {:induction false} LinksCleanFront(cfg: Config, st: PushState, task: LinkTask, out: LinkOut)
    requires Clean(LinkStep(cfg, st, task, out))
    ensures Clean(st)
  {
  }

  lemma {:induction false} DeletionsAt(st: PushState, paths: seq<string>, outs: seq<DeleteOut>, q: string)
    requires |paths| == |outs| && Clean(Deletions(st, paths, outs))
    ensures var after := Deletions(st, paths, outs);
            Clean(st) &&
            Get(after.remote, q) == (if q in paths then None else Get(st.remote, q)) &&
            Get(after.store, q) == (if q in paths then None else Get(st.store, q))
  {
    if paths != [] {
      var n := |paths| - 1;
      DeletionsAt(st, paths[..n], outs[..n], q);
      assert q in paths <==> q in paths[..n] || q == paths[n];
    }
  }
}
