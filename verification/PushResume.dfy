/**
 Stopping and starting again: wherever the file phase of a migrating push stops, the next push
 that ends well leaves what an uninterrupted one would have left.
 */
module PushResume {
  import opened Prelude
  import opened Chunks
  import opened Paths
  import opened Planning
  import opened Batching
  import opened Hierarchy
  import opened MetadataStore
  import opened Push
  import opened PushFacts
  import opened PushClean
  import opened PushResult
  import opened PushScans

  /** The state before the interrupted push. */
  datatype Origin = Origin(remote: Remote, store: View)

  function FinalNode(o: Origin, r: Request): Option<RemoteNode>
    requires r.hashed.Some?
  {
    if HashSame(r) then Get(o.remote, r.path) else Some(RFile(r.hashed.value.hash))
  }

  /** The verified move applies to this request. */
  predicate Moves(o: Origin, r: Request) {
    r.stored.None? && r.oldPath.Some? && Match(r, Get(o.store, r.oldPath.value), Get(o.remote, r.oldPath.value))
  }

  /** No 403 was suppressed and no direct upload overtaken. */
  predicate Pure(st: PushState) { st.ledger.suppressed == {} && st.ledger.overtaken == {} }

  /** Only this request's candidate and record are under way for its path. */
  ghost predicate OnlyOwn(o: Origin, st: PushState, r: Request)
    requires r.hashed.Some?
  {
    (forall i :: 0 <= i < |st.batch| && st.batch[i].remotePath == r.path ==> st.batch[i] == Candidate(r) && !HashSame(r) && !Moves(o, r)) &&
    (forall i :: 0 <= i < |st.pending| && st.pending[i].path == r.path ==>
      st.pending[i] == MetaOf(r) && Get(st.remote, r.path) == FinalNode(o, r) && !Moves(o, r))
  }

  /** The path is as it was, or on its way to where it will end. */
  ghost predicate OwnBetween(o: Origin, st: PushState, r: Request)
    requires r.hashed.Some?
  {
    (Get(st.remote, r.path) == Get(o.remote, r.path) || Get(st.remote, r.path) == FinalNode(o, r)) &&
    (Get(st.store, r.path) == Get(o.store, r.path) ||
     (Get(st.store, r.path) == Some(MetaOf(r)) && Get(st.remote, r.path) == FinalNode(o, r)))
  }

  /** The old path is as it was, or the move has taken the file from there to its new path. */
  ghost predicate OldBetween(o: Origin, st: PushState, r: Request)
    requires r.hashed.Some?
  {
    r.stored.None? && r.oldPath.Some? && r.oldPath.value != r.path ==>
      var q := r.oldPath.value;
      Absent(st, q) && (Get(st.store, q) == Get(o.store, q) || Get(st.store, q) == None) &&
      if Moves(o, r) then
        (Get(st.remote, q) == Get(o.remote, q) && Get(st.store, q) == Get(o.store, q) && Get(st.store, r.path) == None) ||
        (Get(st.remote, q) == None && Get(st.remote, r.path) == Some(RFile(r.hashed.value.hash)))
      else Get(st.remote, q) == Get(o.remote, q)
  }

  ghost predicate Between(o: Origin, st: PushState, r: Request) {
    r.hashed.Some? ==> OnlyOwn(o, st, r) && OwnBetween(o, st, r) && OldBetween(o, st, r)
  }

  /** Nothing has been done about the path yet. */
  ghost predicate Untouched(o: Origin, st: PushState, q: string) {
    Absent(st, q) && Get(st.remote, q) == Get(o.remote, q) && Get(st.store, q) == Get(o.store, q) && Get(st.mem, q) == Get(o.store, q)
  }

  ghost predicate Unprocessed(o: Origin, st: PushState, r: Request) {
    Untouched(o, st, r.path) && (r.stored.None? && r.oldPath.Some? ==> Untouched(o, st, r.oldPath.value))
  }

  // ---------------------------------------------------------------------------------------
  // Flushes
  // ---------------------------------------------------------------------------------------

  lemma {:induction false} IsolateFileBetween(st: PushState, file: PendingPushFile, fate: Fate, q: string, node: Option<RemoteNode>)
    requires Pure(IsolateFile(st, file, fate)) && (file.remotePath == q ==> node == Some(RFile(file.contentHash)))
    ensures var after := IsolateFile(st, file, fate);
            after.store == st.store &&
            (Get(after.remote, q) == Get(st.remote, q) || Get(after.remote, q) == node) &&
            (!after.halted && fate.FileLanded? && file.remotePath == q ==> Get(after.remote, q) == node) &&
            (file.remotePath != q ==> Get(after.remote, q) == Get(st.remote, q))
  {
    if !st.halted {
      ArriveShape(st, [file], fate.delivery);
      ArriveAt(st, [file], fate.delivery, q, node);
      LastInIsThere([file], q);
      assert [file][0] == file;
    }
  }

  lemma {:induction false} IsolateBetween(st: PushState, files: seq<PendingPushFile>, fates: seq<Fate>, q: string, node: Option<RemoteNode>)
    requires |files| == |fates| && Pure(Isolate(st, files, fates)) && AllAre(files, q, node)
    ensures var after := Isolate(st, files, fates);
            after.store == st.store &&
            (Get(after.remote, q) == Get(st.remote, q) || Get(after.remote, q) == node) &&
            (!after.halted && LastIn(Good(files, fates), q).Some? ==> Get(after.remote, q) == node)
  {
    if files != [] {
      var n := |files| - 1;
      var before := Isolate(st, files[..n], fates[..n]);
      IsolateFileShape(before, files[n], fates[n]);
      IsolateBetween(st, files[..n], fates[..n], q, node);
      IsolateFileBetween(before, files[n], fates[n], q, node);
      LastInAppend(Good(files[..n], fates[..n]), files[n], q);
      assert Good(files[..n], fates[..n]) + [] == Good(files[..n], fates[..n]);
    }
  }

  // ---------------------------------------------------------------------------------------
  // A flush, seen from one path
  // ---------------------------------------------------------------------------------------

  /** What is pending for a path once landed files are recorded. */
  lemma {:induction false} RecordedPending(o: Origin, before: PushState, landed: PushState, files: seq<PendingPushFile>, r: Request)
    requires r.hashed.Some? && OnlyOwn(o, before, r) && OutOf(files, before.batch)
    requires landed.pending == before.pending
    requires Get(landed.remote, r.path) == Get(before.remote, r.path) || Get(landed.remote, r.path) == FinalNode(o, r)
    requires LastIn(files, r.path).Some? ==> Get(landed.remote, r.path) == FinalNode(o, r)
    ensures forall i :: 0 <= i < |Record(landed, files).pending| && Record(landed, files).pending[i].path == r.path ==>
              Record(landed, files).pending[i] == MetaOf(r) && Get(landed.remote, r.path) == FinalNode(o, r) && !Moves(o, r)
  {
    var recorded := Record(landed, files);
    LastInIsThere(files, r.path);
    forall i | 0 <= i < |recorded.pending| && recorded.pending[i].path == r.path
      ensures recorded.pending[i] == MetaOf(r) && Get(landed.remote, r.path) == FinalNode(o, r) && !Moves(o, r)
    {
      if i >= |before.pending| {
        assert recorded.pending[i] == FileMeta(files[i - |before.pending|]);
        assert files[i - |before.pending|] in before.batch;
      }
    }
  }

  /** The own path of a request after some of its files landed and were recorded. */
  lemma {:induction false} RecordOwn(o: Origin, before: PushState, landed: PushState, files: seq<PendingPushFile>, stored: bool, r: Request)
    requires r.hashed.Some? && OnlyOwn(o, before, r) && OwnBetween(o, before, r)
    requires OutOf(files, before.batch)
    requires landed.batch == [] && landed.store == before.store && landed.mem == before.mem && landed.pending == before.pending
    requires Get(landed.remote, r.path) == Get(before.remote, r.path) || Get(landed.remote, r.path) == FinalNode(o, r)
    requires LastIn(files, r.path).Some? ==> Get(landed.remote, r.path) == FinalNode(o, r)
    ensures var after := FlushPending(Record(landed, files), stored); OnlyOwn(o, after, r) && OwnBetween(o, after, r)
  {
    RecordedPending(o, before, landed, files, r);
    LastForIsThere(Record(landed, files).pending, r.path);
    WriteAllGets(landed.store, Record(landed, files).pending, r.path);
  }

  /** A hand-over that ends the push in the middle: what arrived is on its way to where it will end. */
  lemma {:induction false} StoppedOwn(o: Origin, before: PushState, after: PushState, r: Request)
    requires r.hashed.Some? && OnlyOwn(o, before, r) && OwnBetween(o, before, r)
    requires after.batch == [] && after.store == before.store && after.pending == before.pending
    requires Get(after.remote, r.path) == Get(before.remote, r.path) || Get(after.remote, r.path) == FinalNode(o, r)
    ensures OnlyOwn(o, after, r) && OwnBetween(o, after, r)
  {
  }

  lemma {:induction false} CandidatesAre(o: Origin, st: PushState, r: Request)
    requires r.hashed.Some? && OnlyOwn(o, st, r)
    ensures AllAre(st.batch, r.path, FinalNode(o, r))
  {
  }

  lemma {:induction false} IsolateAllOwn(o: Origin, before: PushState, tried: PushState, fates: seq<Fate>, stored: bool, r: Request)
    requires r.hashed.Some? && OnlyOwn(o, before, r) && OwnBetween(o, before, r) && |fates| == |before.batch|
    requires tried.batch == [] && tried.store == before.store && tried.mem == before.mem && tried.pending == before.pending
    requires Get(tried.remote, r.path) == Get(before.remote, r.path) || Get(tried.remote, r.path) == FinalNode(o, r)
    requires Pure(IsolateAll(tried, before.batch, fates, stored))
    ensures var after := IsolateAll(tried, before.batch, fates, stored); OnlyOwn(o, after, r) && OwnBetween(o, after, r)
  {
    var files := before.batch;
    var isolated := Isolate(tried, files, fates);
    CandidatesAre(o, before, r);
    IsolateKeeps(tried, files, fates);
    PureThrough(tried, files, fates, stored);
    IsolateBetween(tried, files, fates, r.path, FinalNode(o, r));
    if isolated.halted {
      StoppedOwn(o, before, isolated, r);
    } else {
      GoodAreFiles(files, fates);
      RecordOwn(o, before, isolated, Good(files, fates), stored, r);
    }
  }

  lemma {:induction false} PureThrough(st: PushState, files: seq<PendingPushFile>, fates: seq<Fate>, stored: bool)
    requires |files| == |fates| && Pure(IsolateAll(st, files, fates, stored))
    ensures Pure(Isolate(st, files, fates))
  {
  }

  lemma {:induction false} FlushOwn(o: Origin, st: PushState, out: FlushOut, r: Request)
    requires r.hashed.Some? && Pure(Flush(st, out)) && OnlyOwn(o, st, r) && OwnBetween(o, st, r)
    ensures OnlyOwn(o, Flush(st, out), r) && OwnBetween(o, Flush(st, out), r)
  {
    if !st.halted && st.batch != [] {
      var files := st.batch;
      var handed := Issue(st.(batch := []), Upload(files));
      var tried := Arrive(handed, files, out.delivery);
      ArriveShape(handed, files, out.delivery);
      if out.Isolated? && |out.fates| == |files| {
        IsolateShape(tried, files, out.fates);
      }
      CandidatesAre(o, st, r);
      ArriveAt(handed, files, out.delivery, r.path, FinalNode(o, r));
      HandOverOwn(o, st, tried, out, r);
    }
  }

  lemma {:induction false} HandOverOwn(o: Origin, st: PushState, tried: PushState, out: FlushOut, r: Request)
    requires r.hashed.Some? && OnlyOwn(o, st, r) && OwnBetween(o, st, r)
    requires tried == Arrive(Issue(st.(batch := []), Upload(st.batch)), st.batch, out.delivery)
    requires tried.batch == [] && tried.store == st.store && tried.mem == st.mem && tried.pending == st.pending
    requires Get(tried.remote, r.path) == Get(st.remote, r.path) || Get(tried.remote, r.path) == FinalNode(o, r)
    requires |Arrivals(st.batch, out.delivery)| == |st.batch| && LastIn(st.batch, r.path).Some? ==> Get(tried.remote, r.path) == FinalNode(o, r)
    requires Pure(HandOver(Issue(st.(batch := []), Upload(st.batch)), st.batch, out))
    ensures var after := HandOver(Issue(st.(batch := []), Upload(st.batch)), st.batch, out); OnlyOwn(o, after, r) && OwnBetween(o, after, r)
  {
    if out.BatchLanded? && |Arrivals(st.batch, out.delivery)| == |st.batch| {
      RecordOwn(o, st, tried, st.batch, out.stored, r);
    } else if out.Isolated? && |out.fates| == |st.batch| {
      IsolateAllOwn(o, st, tried, out.fates, out.stored, r);
    } else {
      StoppedOwn(o, st, Halt(tried), r);
    }
  }

  /** Nothing of a file that moves is ever under way. */
  lemma {:induction false} MovingIsAbsent(o: Origin, st: PushState, r: Request)
    requires r.hashed.Some? && OnlyOwn(o, st, r) && Moves(o, r)
    ensures Absent(st, r.path)
  {
  }

  lemma {:induction false} OldFollows(o: Origin, before: PushState, after: PushState, r: Request)
    requires r.hashed.Some? && OldBetween(o, before, r)
    requires r.stored.None? && r.oldPath.Some? && r.oldPath.value != r.path ==> Alike(before, after, r.oldPath.value)
    requires Moves(o, r) ==> Alike(before, after, r.path)
    ensures OldBetween(o, after, r)
  {
  }

  lemma {:induction false} FlushBetween(o: Origin, st: PushState, out: FlushOut, r: Request)
    requires Pure(Flush(st, out)) && Between(o, st, r)
    ensures Between(o, Flush(st, out), r)
  {
    if r.hashed.Some? {
      FlushOwn(o, st, out, r);
      if r.stored.None? && r.oldPath.Some? && r.oldPath.value != r.path {
        FlushElsewhere(st, out, r.oldPath.value);
      }
      if Moves(o, r) {
        MovingIsAbsent(o, st, r);
        FlushElsewhere(st, out, r.path);
      }
      OldFollows(o, st, Flush(st, out), r);
    }
  }

  // ---------------------------------------------------------------------------------------
  // Steps of other files
  // ---------------------------------------------------------------------------------------

  lemma {:induction false} EnqueueElsewhere(cfg: Config, st: PushState, file: PendingPushFile, out: FileOut, q: string)
    requires Absent(st, q) && file.remotePath != q
    ensures Alike(st, Enqueue(cfg, st, file, out), q)
  {
    FlushElsewhere(st, out.before, q);
    var ready := if FlushBefore(st.batch, file, cfg.blob) then Flush(st, out.before) else st;
    FlushElsewhere(ready.(batch := ready.batch + [file]), out.now, q);
  }

  /** A step that queues no file, seen from a path it does not touch. */
  ghost predicate Beside(before: PushState, after: PushState, r: Request, q: string)
    requires r.hashed.Some?
  {
    after.batch == before.batch && after.ledger.suppressed == before.ledger.suppressed && after.ledger.overtaken == before.ledger.overtaken &&
    (after.pending == before.pending || after.pending == before.pending + [MetaOf(r)]) &&
    Get(after.remote, q) == Get(before.remote, q) && Get(after.store, q) == Get(before.store, q) && Get(after.mem, q) == Get(before.mem, q)
  }

  lemma {:induction false} HashSkippedBeside(st: PushState, r: Request, q: string)
    requires r.hashed.Some? && r.stored.Some? && !Touches(r, q)
    ensures Beside(st, HashSkipped(st, r), r, q)
  {
  }

  lemma {:induction false} MigratedBeside(st: PushState, r: Request, end: MoveEnd, q: string)
    requires r.hashed.Some? && r.stored.None? && r.oldPath.Some? && !Touches(r, q)
    ensures Beside(st, MigratedFile(st, r, end), r, q)
  {
  }

  lemma {:induction false} AdoptedBeside(st: PushState, r: Request, end: AdoptEnd, q: string)
    requires r.hashed.Some? && r.stored.None? && r.oldPath.Some? && !Touches(r, q)
    ensures Beside(st, AdoptedFile(st, r, end), r, q)
  {
  }

  lemma {:induction false} HandleBeside(cfg: Config, st: PushState, r: Request, out: FileOut, q: string)
    requires r.hashed.Some? && !Touches(r, q) && !Decide(st.remote, st.mem, r, out).Queue?
    ensures Beside(st, Handle(cfg, st, r, out), r, q)
  {
    match Decide(st.remote, st.mem, r, out)
    case HashSkip => HashSkippedBeside(st, r, q);
    case Migrate => MigratedBeside(st, r, out.move, q);
    case Adopt => AdoptedBeside(st, r, out.adopt, q);
  }

  lemma {:induction false} HandleElsewhere(cfg: Config, st: PushState, r: Request, out: FileOut, q: string)
    requires r.hashed.Some? && Absent(st, q) && !Touches(r, q)
    ensures Alike(st, Handle(cfg, st, r, out), q)
  {
    if Decide(st.remote, st.mem, r, out).Queue? {
      EnqueueElsewhere(cfg, st, Candidate(r), out, q);
    } else {
      HandleBeside(cfg, st, r, out, q);
    }
  }

  lemma {:induction false} EnqueueOwn(o: Origin, cfg: Config, st: PushState, file: PendingPushFile, out: FileOut, r: Request)
    requires r.hashed.Some? && Pure(Enqueue(cfg, st, file, out)) && OnlyOwn(o, st, r) && OwnBetween(o, st, r)
    requires file.remotePath == r.path ==> file == Candidate(r) && !HashSame(r) && !Moves(o, r)
    ensures OnlyOwn(o, Enqueue(cfg, st, file, out), r) && OwnBetween(o, Enqueue(cfg, st, file, out), r)
  {
    var ready := if FlushBefore(st.batch, file, cfg.blob) then Flush(st, out.before) else st;
    var queued := ready.(batch := ready.batch + [file]);
    if !ready.halted && FlushNow(queued.batch, cfg.blob) {
      FlushOps(queued, out.now);
    }
    if FlushBefore(st.batch, file, cfg.blob) {
      FlushOwn(o, st, out.before, r);
    }
    if !ready.halted && FlushNow(queued.batch, cfg.blob) {
      FlushOwn(o, queued, out.now, r);
    }
  }

  lemma {:induction false} BesideOwn(o: Origin, before: PushState, after: PushState, other: Request, r: Request)
    requires other.hashed.Some? && other.path != r.path && Beside(before, after, other, r.path)
    requires r.hashed.Some? && OnlyOwn(o, before, r) && OwnBetween(o, before, r)
    ensures OnlyOwn(o, after, r) && OwnBetween(o, after, r)
  {
  }

  /** A step for another file leaves this one's progress where it is. */
  lemma {:induction false} HandleOtherOwn(o: Origin, cfg: Config, st: PushState, other: Request, out: FileOut, r: Request)
    requires other.hashed.Some? && Pure(Handle(cfg, st, other, out)) && !Touches(other, r.path)
    requires r.hashed.Some? && OnlyOwn(o, st, r) && OwnBetween(o, st, r)
    ensures OnlyOwn(o, Handle(cfg, st, other, out), r) && OwnBetween(o, Handle(cfg, st, other, out), r)
  {
    if Decide(st.remote, st.mem, other, out).Queue? {
      EnqueueOwn(o, cfg, st, Candidate(other), out, r);
    } else {
      HandleBeside(cfg, st, other, out, r.path);
      BesideOwn(o, st, Handle(cfg, st, other, out), other, r);
    }
  }

  lemma {:induction false} HandleOtherBetween(o: Origin, cfg: Config, st: PushState, other: Request, out: FileOut, r: Request)
    requires other.hashed.Some? && Pure(Handle(cfg, st, other, out)) && Apart(other, r) && Between(o, st, r)
    ensures Between(o, Handle(cfg, st, other, out), r)
  {
    if r.hashed.Some? {
      HandleOtherOwn(o, cfg, st, other, out, r);
      if r.stored.None? && r.oldPath.Some? && r.oldPath.value != r.path {
        HandleElsewhere(cfg, st, other, out, r.oldPath.value);
      }
      if Moves(o, r) {
        MovingIsAbsent(o, st, r);
        HandleElsewhere(cfg, st, other, out, r.path);
      }
      OldFollows(o, st, Handle(cfg, st, other, out), r);
    }
  }

  // ---------------------------------------------------------------------------------------
  // The step of the file itself
  // ---------------------------------------------------------------------------------------

  lemma {:induction false} MigratedBetween(o: Origin, st: PushState, r: Request, end: MoveEnd)
    requires r.hashed.Some? && Unprocessed(o, st, r) && Moves(o, r) && Pure(MigratedFile(st, r, end)) && r.stored == Get(o.store, r.path)
    ensures Between(o, MigratedFile(st, r, end), r)
  {
  }

  lemma {:induction false} AdoptedBetween(o: Origin, st: PushState, r: Request, end: AdoptEnd)
    requires r.hashed.Some? && r.oldPath.Some? && Unprocessed(o, st, r) && !Moves(o, r) && r.stored == Get(o.store, r.path)
    requires HasContent(st.remote, r.path, r.hashed.value.hash) && r.stored.None?
    ensures Between(o, AdoptedFile(st, r, end), r)
  {
  }

  lemma {:induction false} HashSkippedBetween(o: Origin, st: PushState, r: Request)
    requires HashSame(r) && Unprocessed(o, st, r) && r.stored == Get(o.store, r.path)
    ensures Between(o, HashSkipped(st, r), r)
  {
  }

  lemma {:induction false} EnqueuedBetween(o: Origin, cfg: Config, st: PushState, r: Request, out: FileOut)
    requires r.hashed.Some? && Unprocessed(o, st, r) && !Moves(o, r) && !HashSame(r) && Pure(Enqueue(cfg, st, Candidate(r), out))
    ensures Between(o, Enqueue(cfg, st, Candidate(r), out), r)
  {
    EnqueueOwn(o, cfg, st, Candidate(r), out, r);
    if r.stored.None? && r.oldPath.Some? && r.oldPath.value != r.path {
      EnqueueElsewhere(cfg, st, Candidate(r), out, r.oldPath.value);
    }
  }

  lemma {:induction false} HandleOwnBetween(o: Origin, cfg: Config, st: PushState, r: Request, out: FileOut)
    requires r.hashed.Some? && Unprocessed(o, st, r) && Pure(Handle(cfg, st, r, out)) && (AsksServer(o.store, r) ==> out.sourceAnswered)
    requires r.stored == Get(o.store, r.path)
    ensures Between(o, Handle(cfg, st, r, out), r)
  {
    match Decide(st.remote, st.mem, r, out)
    case HashSkip => HashSkippedBetween(o, st, r);
    case Migrate => MigratedBetween(o, st, r, out.move);
    case Adopt => AdoptedBetween(o, st, r, out.adopt);
    case Queue => EnqueuedBetween(o, cfg, st, r, out);
  }

  // ---------------------------------------------------------------------------------------
  // The file phase up to any point
  // ---------------------------------------------------------------------------------------

  lemma {:induction false} CompleteBetween(o: Origin, st: PushState, out: FlushOut, r: Request)
    requires Pure(Complete(st, out)) && Between(o, st, r)
    ensures Between(o, Complete(st, out), r)
  {
    if !st.halted && Completed(st.tally).processed % 100 == 0 {
      FlushBetween(o, st.(tally := Completed(st.tally)), out, r);
    }
  }

  lemma {:induction false} CompleteElsewhere(st: PushState, out: FlushOut, q: string)
    requires Absent(st, q)
    ensures Alike(st, Complete(st, out), q)
  {
    if !st.halted && Completed(st.tally).processed % 100 == 0 {
      FlushElsewhere(st.(tally := Completed(st.tally)), out, q);
    }
  }

  /** A path the file does not touch. */
  lemma {:induction false} StepElsewhere(cfg: Config, st: PushState, r: Request, out: FileOut, q: string)
    requires Absent(st, q) && !Touches(r, q)
    ensures Alike(st, FileStep(cfg, st, r, out), q)
  {
    if !st.halted {
      if r.hashed.None? {
        CompleteElsewhere(st.(tally := Failed(st.tally)), out.progress, q);
      } else {
        HandleElsewhere(cfg, st, r, out, q);
        CompleteElsewhere(Handle(cfg, st, r, out), out.progress, q);
      }
    }
  }

  lemma {:induction false} StepOther(o: Origin, cfg: Config, st: PushState, other: Request, out: FileOut, r: Request)
    requires Pure(FileStep(cfg, st, other, out)) && Apart(other, r) && Between(o, st, r)
    ensures Between(o, FileStep(cfg, st, other, out), r)
  {
    if !st.halted {
      FileStepGrows(cfg, st, other, out);
      if other.hashed.None? {
        CompleteBetween(o, st.(tally := Failed(st.tally)), out.progress, r);
      } else {
        HandleOtherBetween(o, cfg, st, other, out, r);
        CompleteBetween(o, Handle(cfg, st, other, out), out.progress, r);
      }
    }
  }

  lemma {:induction false} UnprocessedIsBetween(o: Origin, st: PushState, r: Request)
    requires Unprocessed(o, st, r) && r.stored == Get(o.store, r.path)
    ensures Between(o, st, r)
  {
  }

  lemma {:induction false} StepOwn(o: Origin, cfg: Config, st: PushState, r: Request, out: FileOut)
    requires Pure(FileStep(cfg, st, r, out)) && Unprocessed(o, st, r) && (AsksServer(o.store, r) ==> out.sourceAnswered) && r.stored == Get(o.store, r.path)
    ensures Between(o, FileStep(cfg, st, r, out), r)
  {
    UnprocessedIsBetween(o, st, r);
    if !st.halted && r.hashed.Some? {
      FileStepGrows(cfg, st, r, out);
      HandleOwnBetween(o, cfg, st, r, out);
      CompleteBetween(o, Handle(cfg, st, r, out), out.progress, r);
    }
  }

  lemma {:induction false} FilesElsewhere(o: Origin, cfg: Config, st: PushState, requests: seq<Request>, outs: seq<FileOut>, q: string)
    requires |requests| == |outs| && Untouched(o, st, q)
    requires forall i :: 0 <= i < |requests| ==> !Touches(requests[i], q)
    ensures Untouched(o, Files(cfg, st, requests, outs), q)
  {
    if requests != [] {
      var n := |requests| - 1;
      FilesElsewhere(o, cfg, st, requests[..n], outs[..n], q);
      StepElsewhere(cfg, Files(cfg, st, requests[..n], outs[..n]), requests[n], outs[n], q);
    }
  }

  lemma {:induction false} FilesUnprocessed(o: Origin, cfg: Config, st: PushState, requests: seq<Request>, outs: seq<FileOut>, r: Request)
    requires |requests| == |outs| && Unprocessed(o, st, r)
    requires forall i :: 0 <= i < |requests| ==> Apart(requests[i], r)
    ensures Unprocessed(o, Files(cfg, st, requests, outs), r)
  {
    FilesElsewhere(o, cfg, st, requests, outs, r.path);
    if r.stored.None? && r.oldPath.Some? {
      FilesElsewhere(o, cfg, st, requests, outs, r.oldPath.value);
    }
  }

  /** Wherever the file phase stands, every file is somewhere between where it was and where it will be. */
  lemma {:induction false} FilesBetween(o: Origin, cfg: Config, st: PushState, requests: seq<Request>, outs: seq<FileOut>, r: Request)
    requires |requests| == |outs| && Pure(Files(cfg, st, requests, outs)) && AllAnswered(o.store, requests, outs)
    requires Unprocessed(o, st, r) && r.stored == Get(o.store, r.path)
    requires AllApart(requests) && forall i :: 0 <= i < |requests| ==> requests[i] == r || Apart(requests[i], r)
    ensures Between(o, Files(cfg, st, requests, outs), r)
  {
    if requests == [] {
      UnprocessedIsBetween(o, st, r);
    } else {
      var n := |requests| - 1;
      var before := Files(cfg, st, requests[..n], outs[..n]);
      FileStepGrows(cfg, before, requests[n], outs[n]);
      if requests[n] == r {
        forall i | 0 <= i < n ensures Apart(requests[i], r) {
          assert Apart(requests[i], requests[n]);
        }
        FilesUnprocessed(o, cfg, st, requests[..n], outs[..n], r);
        StepOwn(o, cfg, before, r, outs[n]);
      } else {
        FilesBetween(o, cfg, st, requests[..n], outs[..n], r);
        StepOther(o, cfg, before, requests[n], outs[n], r);
      }
    }
  }

  // ---------------------------------------------------------------------------------------
  // Stopping and starting again
  // ---------------------------------------------------------------------------------------

  /**
   A push stopped after k prepared files: killed there, or by any of the stops inside the last
   step, or in the middle of handing over a batch (a kill leaves what `BatchHalts` leaves).
   */
  function Interrupted(cfg: Config, st: PushState, walk: seq<Entry>, order: seq<Request>, outs: seq<FileOut>, k: nat, out: FlushOut): PushState
    requires |outs| == |order| && k <= |order|
  {
    Flush(Files(cfg, AfterScan(cfg, st, walk), order[..k], outs[..k]), out)
  }

  /** What the interrupted run may be: files in any order, verification queries answered, no 403, no overtaken direct upload. */
  ghost predicate Stopped(cfg: Config, st: PushState, walk: seq<Entry>, order: seq<Request>, outs: seq<FileOut>, k: nat, out: FlushOut) {
    |outs| == |order| && k <= |order| && multiset(order) == multiset(ScanAll(cfg, st.store, walk).requests) &&
    AllAnswered(st.store, order, outs) && ProperWalk(walk) && NonOverlap(cfg, st.store, walk) && KeysArePaths(st.store) &&
    Pure(Interrupted(cfg, st, walk, order, outs, k, out))
  }

  lemma {:induction false} StoppedBetween(cfg: Config, st: PushState, walk: seq<Entry>, order: seq<Request>, outs: seq<FileOut>, k: nat, out: FlushOut, r: Request)
    requires Stopped(cfg, st, walk, order, outs, k, out) && r in order
    ensures Between(Origin(st.remote, st.store), Interrupted(cfg, st, walk, order, outs, k, out), r)
    ensures r.stored == Get(st.store, r.path)
  {
    RequestsApart(cfg, st.store, walk, order);
    var files := Files(cfg, AfterScan(cfg, st, walk), order[..k], outs[..k]);
    FlushOps(files, out);
    var o := Origin(st.remote, st.store);
    assert Unprocessed(o, AfterScan(cfg, st, walk), r);
    var at :| 0 <= at < |order| && order[at] == r;
    forall i | 0 <= i < k ensures order[..k][i] == r || Apart(order[..k][i], r) {
      assert i == at || Apart(order[i], order[at]);
    }
    assert AllApart(order[..k]) by {
      forall i, j | 0 <= i < k && 0 <= j < k && i != j ensures Apart(order[..k][i], order[..k][j]) {
        assert Apart(order[i], order[j]);
      }
    }
    FilesBetween(o, cfg, AfterScan(cfg, st, walk), order[..k], outs[..k], r);
    FlushBetween(o, files, out, r);
  }

  lemma {:induction false} StoppedElsewhere(cfg: Config, st: PushState, walk: seq<Entry>, order: seq<Request>, outs: seq<FileOut>, k: nat, out: FlushOut, q: string)
    requires Stopped(cfg, st, walk, order, outs, k, out) && forall i :: 0 <= i < |order| ==> !Touches(order[i], q)
    ensures var after := Interrupted(cfg, st, walk, order, outs, k, out);
            Get(after.remote, q) == Get(st.remote, q) && Get(after.store, q) == Get(st.store, q)
  {
    var files := Files(cfg, AfterScan(cfg, st, walk), order[..k], outs[..k]);
    FlushOps(files, out);
    FilesElsewhere(Origin(st.remote, st.store), cfg, AfterScan(cfg, st, walk), order[..k], outs[..k], q);
    FlushElsewhere(files, out, q);
  }

  /** Between the old state and its end, a file's own path has the same end. */
  lemma {:induction false} OwnEndsTheSame(cfg: Config, o: Origin, now: PushState, walk: seq<Entry>, q: string)
    requires Find(cfg, walk, q).Some? && Judge(cfg, o.store, Find(cfg, walk, q).value).Prepare?
    requires var r := Judge(cfg, o.store, Find(cfg, walk, q).value).request; r.path == q && r.hashed.Some? && OwnBetween(o, now, r)
    ensures FinalRecord(cfg, now.store, walk, q) == FinalRecord(cfg, o.store, walk, q)
    ensures FinalRemote(cfg, now.remote, now.store, walk, q) == FinalRemote(cfg, o.remote, o.store, walk, q)
  {
  }

  /** No scanned file has lost its record on the way. */
  ghost predicate RecordsStay(cfg: Config, before: View, now: View, walk: seq<Entry>) {
    forall e :: 0 <= e < |walk| && Marks(cfg, walk[e]) && RemotePath(cfg, walk[e]) in before ==> RemotePath(cfg, walk[e]) in now
  }

  /** With distinct old names one file decides, on the way as before. */
  lemma {:induction false} MovedAwayLater(cfg: Config, before: View, remote: Remote, now: View, walk: seq<Entry>, q: string, e: nat)
    requires NonOverlap(cfg, before, walk) && RecordsStay(cfg, before, now, walk)
    requires e < |walk| && LooksBack(cfg, before, walk[e]) && OldPath(cfg, walk[e]) == Some(q)
    ensures MovedAway(cfg, remote, now, walk, q) <==>
            Judge(cfg, now, walk[e]).Prepare? && Match(Judge(cfg, now, walk[e]).request, Get(now, q), Get(remote, q))
  {
    forall i | 0 <= i < |walk| && Judge(cfg, now, walk[i]).Prepare? && Judge(cfg, now, walk[i]).request.oldPath == Some(q) &&
               Match(Judge(cfg, now, walk[i]).request, Get(now, q), Get(remote, q))
      ensures i == e
    {
      assert LooksBack(cfg, before, walk[i]) && OldPath(cfg, walk[i]) == Some(q);
    }
  }

  /** The old path of a moving file has the same end. */
  lemma {:induction false} OldEndsTheSame(cfg: Config, o: Origin, now: PushState, walk: seq<Entry>, q: string, e: nat)
    requires NonOverlap(cfg, o.store, walk) && RecordsStay(cfg, o.store, now.store, walk)
    requires e < |walk| && Find(cfg, walk, q).None? && Judge(cfg, o.store, walk[e]).Prepare?
    requires var r := Judge(cfg, o.store, walk[e]).request; Asks(r, q) && r.path != q && r.hashed.Some? && Between(o, now, r)
    requires UnderOldBase(cfg, q)
    ensures FinalRemote(cfg, now.remote, now.store, walk, q) == FinalRemote(cfg, o.remote, o.store, walk, q)
  {
    MovedAwayLater(cfg, o.store, o.remote, o.store, walk, q, e);
    MovedAwayLater(cfg, o.store, now.remote, now.store, walk, q, e);
  }

  lemma {:induction false} OrderIsScan(cfg: Config, store: View, walk: seq<Entry>, order: seq<Request>)
    requires multiset(order) == multiset(ScanAll(cfg, store, walk).requests) && ProperWalk(walk)
    ensures forall r :: r in order <==> r in ScanAll(cfg, store, walk).requests
  {
    ScanDistinct(cfg, store, walk);
    PermutationDistinct(order, ScanAll(cfg, store, walk).requests);
  }

  lemma {:induction false} OrderOrigin(cfg: Config, store: View, walk: seq<Entry>, order: seq<Request>, i: nat) returns (e: nat)
    requires multiset(order) == multiset(ScanAll(cfg, store, walk).requests) && ProperWalk(walk) && i < |order|
    ensures e < |walk| && Judge(cfg, store, walk[e]) == Prepare(order[i]) && Find(cfg, walk, order[i].path) == Some(walk[e])
  {
    OrderIsScan(cfg, store, walk, order);
    assert order[i] in order;
    var requests := ScanAll(cfg, store, walk).requests;
    var k :| 0 <= k < |requests| && requests[k] == order[i];
    e := RequestOrigin(cfg, store, walk, k);
    MarkedIsFound(cfg, walk, e);
  }

  /** The stopped state, looked at path by path, has the same end as the state before. */
  ghost predicate SameEnd(cfg: Config, before: PushState, now: PushState, walk: seq<Entry>, q: string) {
    FinalRecord(cfg, now.store, walk, q) == FinalRecord(cfg, before.store, walk, q) &&
    FinalRemote(cfg, now.remote, now.store, walk, q) == FinalRemote(cfg, before.remote, before.store, walk, q)
  }

  lemma {:induction false} ResumeOwn(cfg: Config, st: PushState, walk: seq<Entry>, order: seq<Request>, outs: seq<FileOut>, k: nat,
                                     out: FlushOut, straight: Trace, q: string)
    requires Stopped(cfg, st, walk, order, outs, k, out) && CleanPush(cfg, st, walk, straight)
    requires Find(cfg, walk, q).Some? && Judge(cfg, st.store, Find(cfg, walk, q).value).Prepare?
    ensures SameEnd(cfg, st, Interrupted(cfg, st, walk, order, outs, k, out), walk, q)
  {
    var f := FoundIsInWalk(cfg, walk, q);
    OwnResult(cfg, st, walk, straight, q);
    RequestOf(cfg, st.store, walk, f);
    OrderIsScan(cfg, st.store, walk, order);
    StoppedBetween(cfg, st, walk, order, outs, k, out, Judge(cfg, st.store, walk[f]).request);
    OwnEndsTheSame(cfg, Origin(st.remote, st.store), Interrupted(cfg, st, walk, order, outs, k, out), walk, q);
  }

  lemma {:induction false} QuietIsUntouched(cfg: Config, store: View, walk: seq<Entry>, order: seq<Request>, q: string)
    requires multiset(order) == multiset(ScanAll(cfg, store, walk).requests) && ProperWalk(walk) && NonOverlap(cfg, store, walk)
    requires Find(cfg, walk, q).Some? && !Judge(cfg, store, Find(cfg, walk, q).value).Prepare?
    ensures forall i :: 0 <= i < |order| ==> !Touches(order[i], q)
  {
    var f := FoundIsInWalk(cfg, walk, q);
    forall i | 0 <= i < |order| ensures !Touches(order[i], q) {
      var e := OrderOrigin(cfg, store, walk, order, i);
      assert e != f;
    }
  }

  lemma {:induction false} ResumeQuiet(cfg: Config, st: PushState, walk: seq<Entry>, order: seq<Request>, outs: seq<FileOut>, k: nat,
                                       out: FlushOut, q: string)
    requires Stopped(cfg, st, walk, order, outs, k, out)
    requires Find(cfg, walk, q).Some? && !Judge(cfg, st.store, Find(cfg, walk, q).value).Prepare?
    ensures SameEnd(cfg, st, Interrupted(cfg, st, walk, order, outs, k, out), walk, q)
  {
    QuietIsUntouched(cfg, st.store, walk, order, q);
    StoppedElsewhere(cfg, st, walk, order, outs, k, out, q);
    var f := FoundIsInWalk(cfg, walk, q);
  }

  lemma {:induction false} StoppedRecordsStay(cfg: Config, st: PushState, walk: seq<Entry>, order: seq<Request>, outs: seq<FileOut>, k: nat,
                                              out: FlushOut, straight: Trace)
    requires Stopped(cfg, st, walk, order, outs, k, out) && CleanPush(cfg, st, walk, straight)
    ensures RecordsStay(cfg, st.store, Interrupted(cfg, st, walk, order, outs, k, out).store, walk)
  {
    var now := Interrupted(cfg, st, walk, order, outs, k, out).store;
    forall e | 0 <= e < |walk| && Marks(cfg, walk[e]) && RemotePath(cfg, walk[e]) in st.store ensures RemotePath(cfg, walk[e]) in now {
      var p := RemotePath(cfg, walk[e]);
      MarkedIsFound(cfg, walk, e);
      if Judge(cfg, st.store, walk[e]).Prepare? {
        OwnResult(cfg, st, walk, straight, p);
        RequestOf(cfg, st.store, walk, e);
        OrderIsScan(cfg, st.store, walk, order);
        StoppedBetween(cfg, st, walk, order, outs, k, out, Judge(cfg, st.store, walk[e]).request);
      } else {
        QuietIsUntouched(cfg, st.store, walk, order, p);
        StoppedElsewhere(cfg, st, walk, order, outs, k, out, p);
      }
    }
  }

  /** A name nobody asks about is moved away neither before nor after the stop. */
  lemma {:induction false} NeverMoved(cfg: Config, remote: Remote, before: View, now: View, walk: seq<Entry>, order: seq<Request>, q: string)
    requires multiset(order) == multiset(ScanAll(cfg, before, walk).requests) && ProperWalk(walk) && RecordsStay(cfg, before, now, walk)
    requires forall i :: 0 <= i < |order| ==> !Asks(order[i], q)
    ensures !MovedAway(cfg, remote, now, walk, q)
  {
    OrderIsScan(cfg, before, walk, order);
    forall e | 0 <= e < |walk| && Judge(cfg, now, walk[e]).Prepare? ensures !Asks(Judge(cfg, now, walk[e]).request, q) {
      if Asks(Judge(cfg, now, walk[e]).request, q) {
        assert Judge(cfg, before, walk[e]) == Judge(cfg, now, walk[e]);
        RequestOf(cfg, before, walk, e);
      }
    }
  }

  lemma {:induction false} ResumeOld(cfg: Config, st: PushState, walk: seq<Entry>, order: seq<Request>, outs: seq<FileOut>, k: nat,
                                     out: FlushOut, straight: Trace, i: nat)
    requires Stopped(cfg, st, walk, order, outs, k, out) && CleanPush(cfg, st, walk, straight) && i < |order|
    requires order[i].stored.None? && order[i].oldPath.Some? && Find(cfg, walk, order[i].oldPath.value).None?
    ensures SameEnd(cfg, st, Interrupted(cfg, st, walk, order, outs, k, out), walk, order[i].oldPath.value)
  {
    var e := OrderOrigin(cfg, st.store, walk, order, i);
    var now := Interrupted(cfg, st, walk, order, outs, k, out);
    var q := order[i].oldPath.value;
    OldNameUnderOldBase(cfg, walk[e]);
    StoppedRecordsStay(cfg, st, walk, order, outs, k, out, straight);
    OrderRead(cfg, st, walk, order, straight, i);
    StoppedBetween(cfg, st, walk, order, outs, k, out, order[i]);
    OldEndsTheSame(cfg, Origin(st.remote, st.store), now, walk, q, e);
  }

  lemma {:induction false} OrderRead(cfg: Config, st: PushState, walk: seq<Entry>, order: seq<Request>, straight: Trace, i: nat)
    requires multiset(order) == multiset(ScanAll(cfg, st.store, walk).requests) && CleanPush(cfg, st, walk, straight) && i < |order|
    ensures order[i].hashed.Some? && order[i] in order && Find(cfg, walk, order[i].path).Some?
  {
    var e := OrderOrigin(cfg, st.store, walk, order, i);
    OwnResult(cfg, st, walk, straight, order[i].path);
  }

  lemma {:induction false} ResumeStranger(cfg: Config, st: PushState, walk: seq<Entry>, order: seq<Request>, outs: seq<FileOut>, k: nat,
                                          out: FlushOut, straight: Trace, q: string)
    requires Stopped(cfg, st, walk, order, outs, k, out) && CleanPush(cfg, st, walk, straight) && Find(cfg, walk, q).None?
    requires forall i :: 0 <= i < |order| ==> !Touches(order[i], q)
    ensures SameEnd(cfg, st, Interrupted(cfg, st, walk, order, outs, k, out), walk, q)
  {
    var now := Interrupted(cfg, st, walk, order, outs, k, out);
    StoppedElsewhere(cfg, st, walk, order, outs, k, out, q);
    StoppedRecordsStay(cfg, st, walk, order, outs, k, out, straight);
    NeverMoved(cfg, st.remote, st.store, st.store, walk, order, q);
    NeverMoved(cfg, now.remote, st.store, now.store, walk, order, q);
  }

  lemma {:induction false} StoppedSameEnd(cfg: Config, st: PushState, walk: seq<Entry>, order: seq<Request>, outs: seq<FileOut>, k: nat,
                                          out: FlushOut, straight: Trace, q: string)
    requires Stopped(cfg, st, walk, order, outs, k, out) && CleanPush(cfg, st, walk, straight)
    ensures SameEnd(cfg, st, Interrupted(cfg, st, walk, order, outs, k, out), walk, q)
  {
    if Find(cfg, walk, q).Some? {
      if Judge(cfg, st.store, Find(cfg, walk, q).value).Prepare? {
        ResumeOwn(cfg, st, walk, order, outs, k, out, straight, q);
      } else {
        ResumeQuiet(cfg, st, walk, order, outs, k, out, q);
      }
    } else if i :| 0 <= i < |order| && Asks(order[i], q) {
      ResumeOld(cfg, st, walk, order, outs, k, out, straight, i);
    } else {
      forall i | 0 <= i < |order| ensures order[i].path != q {
        var e := OrderOrigin(cfg, st.store, walk, order, i);
      }
      ResumeStranger(cfg, st, walk, order, outs, k, out, straight, q);
    }
  }

  /**
   Stop the file phase anywhere - after the rename, after the old record is gone, after the new
   one is written, in the middle of a batch - and push again: remote tree and records are those
   of a push that was never interrupted.
   */
  lemma {:induction false} ResumeReachesTheSame(cfg: Config, st: PushState, walk: seq<Entry>,
                                                order: seq<Request>, outs: seq<FileOut>, k: nat, out: FlushOut,
                                                again: PushState, resumed: Trace, straight: Trace, q: string)
    requires Stopped(cfg, st, walk, order, outs, k, out)
    requires again.remote == Interrupted(cfg, st, walk, order, outs, k, out).remote
    requires again.store == Interrupted(cfg, st, walk, order, outs, k, out).store
    requires CleanPush(cfg, again, walk, resumed) && CleanPush(cfg, st, walk, straight)
    ensures Answered(again, resumed) && Answered(st, straight) ==>
              Get(After(cfg, again, walk, resumed).remote, q) == Get(After(cfg, st, walk, straight).remote, q)
    ensures Get(After(cfg, again, walk, resumed).store, q) == Get(After(cfg, st, walk, straight).store, q)
  {
    CleanPushIsDetermined(cfg, again, walk, resumed, q);
    CleanPushIsDetermined(cfg, st, walk, straight, q);
    StoppedSameEnd(cfg, st, walk, order, outs, k, out, straight, q);
  }

  // ---------------------------------------------------------------------------------------
  // No second upload
  // ---------------------------------------------------------------------------------------

  /** The old name is gone from the server, and the new one holds the content. */
  predicate AlreadyMoved(remote: Remote, r: Request) {
    r.hashed.Some? && r.stored.None? && r.oldPath.Some? && r.oldPath.value != r.path &&
    Get(remote, r.oldPath.value) == None && HasContent(remote, r.path, r.hashed.value.hash)
  }

  /** Such a file is adopted, not uploaded. */
  lemma {:induction false} LastIsAdopted(cfg: Config, st: PushState, requests: seq<Request>, outs: seq<FileOut>, k: nat)
    requires |requests| == |outs| > 0 && Clean(Files(cfg, st, requests, outs)) && Fresh(st) && AllApart(requests)
    requires var n := |requests| - 1; AlreadyMoved(st.remote, requests[n]) && outs[n].targetAnswered && Idle(st, k, requests[n].path)
    ensures Idle(Files(cfg, st, requests, outs), k, requests[|requests| - 1].path)
  {
    var n := |requests| - 1;
    var r := requests[n];
    var before := Files(cfg, st, requests[..n], outs[..n]);
    StepIsHandle(cfg, before, r, outs[n], r.path);
    forall i | 0 <= i < n ensures !Touches(requests[i], r.path) && !Touches(requests[i], r.oldPath.value) {
      assert Apart(requests[i], r);
    }
    FilesOther(cfg, st, requests[..n], outs[..n], r.path);
    FilesOther(cfg, st, requests[..n], outs[..n], r.oldPath.value);
    FilesIdle(cfg, st, requests[..n], outs[..n], k, r.path);
    FileStepIdle(cfg, before, r, outs[n], k, r.path);
  }

  lemma {:induction false} FilesIdleAdopting(cfg: Config, st: PushState, requests: seq<Request>, outs: seq<FileOut>, j: nat, k: nat)
    requires |requests| == |outs| && Clean(Files(cfg, st, requests, outs)) && Fresh(st) && AllApart(requests) && j < |requests|
    requires AlreadyMoved(st.remote, requests[j]) && outs[j].targetAnswered && Idle(st, k, requests[j].path)
    ensures Idle(Files(cfg, st, requests, outs), k, requests[j].path)
  {
    var n := |requests| - 1;
    if j == n {
      LastIsAdopted(cfg, st, requests, outs, k);
    } else {
      FrontIsClean(cfg, st, requests, outs);
      assert Apart(requests[n], requests[j]);
      FilesIdleAdopting(cfg, st, requests[..n], outs[..n], j, k);
      FileStepIdle(cfg, Files(cfg, st, requests[..n], outs[..n]), requests[n], outs[n], k, requests[j].path);
    }
  }

  lemma {:induction false} ResumedRequestIs(cfg: Config, before: View, store: View, walk: seq<Entry>, order: seq<Request>, i: nat,
                                            again: seq<Request>, j: nat)
    requires multiset(order) == multiset(ScanAll(cfg, before, walk).requests) && ProperWalk(walk) && i < |order|
    requires multiset(again) == multiset(ScanAll(cfg, store, walk).requests) && j < |again| && again[j].path == order[i].path
    ensures again[j] == order[i].(stored := Get(store, order[i].path))
  {
    var e := OrderOrigin(cfg, before, walk, order, i);
    var d := OrderOrigin(cfg, store, walk, again, j);
  }

  /** Once its rename has happened, a file is not uploaded by the push that resumes. */
  lemma {:induction false} MovedFileIsNotUploadedAgain(cfg: Config, st: PushState, walk: seq<Entry>,
                                                       order: seq<Request>, outs: seq<FileOut>, k: nat, out: FlushOut,
                                                       again: PushState, resumed: Trace, at: nat)
    requires Stopped(cfg, st, walk, order, outs, k, out) && at < |order| && Moves(Origin(st.remote, st.store), order[at])
    requires order[at].oldPath.value !in Interrupted(cfg, st, walk, order, outs, k, out).remote
    requires again.remote == Interrupted(cfg, st, walk, order, outs, k, out).remote
    requires again.store == Interrupted(cfg, st, walk, order, outs, k, out).store
    requires CleanPush(cfg, again, walk, resumed) && forall i :: 0 <= i < |resumed.fileOuts| ==> resumed.fileOuts[i].targetAnswered
    ensures NoUploads(After(cfg, again, walk, resumed).ledger.ops, |again.ledger.ops|, order[at].path)
  {
    var r := order[at];
    StoppedBetween(cfg, st, walk, order, outs, k, out, r);
    RenamedIsThere(Origin(st.remote, st.store), Interrupted(cfg, st, walk, order, outs, k, out), r);
    if j :| 0 <= j < |resumed.requests| && resumed.requests[j].path == r.path {
      RequestsApart(cfg, again.store, walk, resumed.requests);
      ResumedRequestIs(cfg, st.store, again.store, walk, order, at, resumed.requests, j);
      ResumedRequestIdle(cfg, again, walk, resumed, r, j);
    } else {
      FilesIdle(cfg, AfterScan(cfg, again, walk), resumed.requests, resumed.fileOuts, |again.ledger.ops|, r.path);
    }
    RestIdle(cfg, again, walk, resumed, |again.ledger.ops|, r.path);
  }

  lemma {:induction false} RenamedIsThere(o: Origin, st: PushState, r: Request)
    requires Between(o, st, r) && Moves(o, r) && r.stored == Get(o.store, r.path) && r.oldPath.value !in st.remote
    ensures HasContent(st.remote, r.path, r.hashed.value.hash)
    ensures Get(st.store, r.path) == None || Get(st.store, r.path) == Some(MetaOf(r))
  {
  }

  lemma {:induction false} ResumedRequestIdle(cfg: Config, again: PushState, walk: seq<Entry>, resumed: Trace, r: Request, j: nat)
    requires CleanPush(cfg, again, walk, resumed) && forall i :: 0 <= i < |resumed.fileOuts| ==> resumed.fileOuts[i].targetAnswered
    requires j < |resumed.requests| && resumed.requests[j] == r.(stored := Get(again.store, r.path)) && AllApart(resumed.requests)
    requires r.hashed.Some? && r.oldPath.Some? && r.oldPath.value != r.path
    requires Get(again.store, r.path) == None || Get(again.store, r.path) == Some(MetaOf(r))
    requires Get(again.remote, r.oldPath.value) == None && HasContent(again.remote, r.path, r.hashed.value.hash)
    ensures Idle(Files(cfg, AfterScan(cfg, again, walk), resumed.requests, resumed.fileOuts), |again.ledger.ops|, r.path)
  {
    CleanPhases(cfg, again, walk, resumed);
    if Get(again.store, r.path) == None {
      FilesIdleAdopting(cfg, AfterScan(cfg, again, walk), resumed.requests, resumed.fileOuts, j, |again.ledger.ops|);
    } else {
      forall i | 0 <= i < |resumed.requests| && resumed.requests[i].path == r.path ensures HashSame(resumed.requests[i]) {
        assert i == j || Apart(resumed.requests[i], resumed.requests[j]);
      }
      FilesIdle(cfg, AfterScan(cfg, again, walk), resumed.requests, resumed.fileOuts, |again.ledger.ops|, r.path);
    }
  }
}
