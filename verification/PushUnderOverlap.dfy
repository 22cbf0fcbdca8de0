/**
 A push without failures where old names are names of scanned files: what it amounts to as long as
 those files need no work of their own, and what becomes of one that does.
 */
module PushUnderOverlap {
  import opened Prelude
  import opened Chunks
  import opened Paths
  import opened Planning
  import opened Batching
  import opened Hierarchy
  import opened MetadataStore
  import opened Push
  import opened PushFacts
  import opened PushClean
  import opened PushResult
  import opened PushScans
  import opened PushOverlap

  // ---------------------------------------------------------------------------------------
  // Mild overlap: the result is still determined
  // ---------------------------------------------------------------------------------------

  /** The record a push leaves: another file may have taken that of a scanned one. */
  ghost function MildRecord(cfg: Config, remote: Remote, store: View, walk: seq<Entry>, q: string): Option<FileSyncMeta> {
    if Find(cfg, walk, q).Some? && RecordTaken(cfg, remote, store, walk, q) then None else FinalRecord(cfg, store, walk, q)
  }

  /** And the remote node: another file may have moved that of a scanned one. */
  ghost function MildRemote(cfg: Config, remote: Remote, store: View, walk: seq<Entry>, q: string): Option<RemoteNode> {
    if MovedAway(cfg, remote, store, walk, q) then None else FinalRemote(cfg, remote, store, walk, q)
  }

  /** With one file looking back, the old file goes exactly when the verified move applies. */
  lemma {:induction false} FateIsMove(cfg: Config, st: PushState, walk: seq<Entry>, t: Trace, q: string)
    requires CleanRun(cfg, st, walk, t) && OneLooksBack(cfg, st.store, walk, q)
    ensures var taker := Taker(t.requests, q, st.remote, st.store);
            taker.Some? && Moves(taker.value, q, st.remote, st.store) <==> MovedAway(cfg, st.remote, st.store, walk, q)
  {
    if MovedAway(cfg, st.remote, st.store, walk, q) {
      OneMover(cfg, st, walk, t, q);
    } else if Taker(t.requests, q, st.remote, st.store).Some? {
      var e := TakerEntry(cfg, st, walk, t, q);
    }
  }

  lemma {:induction false} MoverLooksBack(cfg: Config, remote: Remote, store: View, walk: seq<Entry>, q: string) returns (i: nat)
    requires MovedAway(cfg, remote, store, walk, q)
    ensures i < |walk| && LooksBackTo(cfg, store, walk[i], q) && RemotePath(cfg, walk[i]) != q
  {
    i :| 0 <= i < |walk| && Judge(cfg, store, walk[i]).Prepare? && Judge(cfg, store, walk[i]).request.oldPath == Some(q) &&
         Match(Judge(cfg, store, walk[i]).request, Get(store, q), Get(remote, q));
    RequestOfBack(cfg, store, walk[i], Judge(cfg, store, walk[i]).request);
  }

  /** A scanned path that nobody else looks back to. */
  lemma {:induction false} AloneRemoteIs(cfg: Config, st: PushState, walk: seq<Entry>, t: Trace, e: nat)
    requires CleanRun(cfg, st, walk, t) && e < |walk| && Marks(cfg, walk[e]) && !LookedBackTo(cfg, st.store, walk, e)
    ensures var q := RemotePath(cfg, walk[e]); Get(After(cfg, st, walk, t).remote, q) == MildRemote(cfg, st.remote, st.store, walk, q)
  {
    var q := RemotePath(cfg, walk[e]);
    MarkedIsFound(cfg, walk, e);
    SeenAtEnd(cfg, st, walk, t, q);
    if MovedAway(cfg, st.remote, st.store, walk, q) {
      var i := MoverLooksBack(cfg, st.remote, st.store, walk, q);
      assert LookedBackTo(cfg, st.store, walk, e);
    }
    if Judge(cfg, st.store, walk[e]).Prepare? {
      var i := FoundRequest(cfg, st, walk, t, q);
      forall j | 0 <= j < |t.requests| && j != i ensures !Touches(t.requests[j], t.requests[i].path) {
        RequestsDiffer(cfg, st, walk, t, i, j);
        EntryAlone(cfg, st, walk, t, e, j);
      }
      OwnResultAlone(cfg, st, walk, t, i);
    } else {
      forall j | 0 <= j < |t.requests| ensures !Touches(t.requests[j], q) {
        EntryAlone(cfg, st, walk, t, e, j);
      }
      UntouchedResult(cfg, st, walk, t, q);
    }
  }

  /** A scanned path that another file looks back to: the file there needs no work. */
  lemma {:induction false} LookedBackRemoteIs(cfg: Config, st: PushState, walk: seq<Entry>, t: Trace, e: nat)
    requires CleanRun(cfg, st, walk, t) && MildOverlap(cfg, st.store, walk) && e < |walk| && Marks(cfg, walk[e])
    requires AnsweredAbout(t, RemotePath(cfg, walk[e])) && LookedBackTo(cfg, st.store, walk, e) && OneLooksBack(cfg, st.store, walk, RemotePath(cfg, walk[e]))
    ensures var q := RemotePath(cfg, walk[e]); Get(After(cfg, st, walk, t).remote, q) == MildRemote(cfg, st.remote, st.store, walk, q)
  {
    var q := RemotePath(cfg, walk[e]);
    MarkedIsFound(cfg, walk, e);
    var i :| 0 <= i < |walk| && i != e && LooksBackTo(cfg, st.store, walk[i], q);
    assert Unworked(cfg, st.store, walk[e]);
    OldNameUnderOldBase(cfg, walk[i]);
    MildIsFree(cfg, st.store, walk, q);
    OldNameFate(cfg, st, walk, t, q);
    FateIsMove(cfg, st, walk, t, q);
  }

  /** A path that no marked entry bears. */
  lemma {:induction false} UnseenRemoteIs(cfg: Config, st: PushState, walk: seq<Entry>, t: Trace, q: string)
    requires CleanRun(cfg, st, walk, t) && MildOverlap(cfg, st.store, walk) && AnsweredAbout(t, q) && OneLooksBack(cfg, st.store, walk, q)
    requires Find(cfg, walk, q).None?
    ensures Get(After(cfg, st, walk, t).remote, q) == MildRemote(cfg, st.remote, st.store, walk, q)
  {
    if UnderOldBase(cfg, q) {
      MildIsFree(cfg, st.store, walk, q);
      OldNameFate(cfg, st, walk, t, q);
      FateIsMove(cfg, st, walk, t, q);
    } else {
      ElsewhereRemoteIs(cfg, st, walk, t, q);
    }
  }

  lemma {:induction false} ElsewhereRemoteIs(cfg: Config, st: PushState, walk: seq<Entry>, t: Trace, q: string)
    requires CleanRun(cfg, st, walk, t) && Find(cfg, walk, q).None? && !UnderOldBase(cfg, q)
    ensures Get(After(cfg, st, walk, t).remote, q) == MildRemote(cfg, st.remote, st.store, walk, q)
  {
    CleanPhases(cfg, st, walk, t);
    forall i | 0 <= i < |t.requests| ensures !Touches(t.requests[i], q) {
      var e := RequestEntry(cfg, st, walk, t, i);
      if Asks(t.requests[i], q) {
        OldNameUnderOldBase(cfg, walk[e]);
      }
    }
    if MovedAway(cfg, st.remote, st.store, walk, q) {
      var i := MoverLooksBack(cfg, st.remote, st.store, walk, q);
      OldNameUnderOldBase(cfg, walk[i]);
    }
    ThroughLinks(cfg, st, walk, t, q);
    FilesOther(cfg, AfterScan(cfg, st, walk), t.requests, t.fileOuts, q);
    SeenIsFound(cfg, st.store, walk, q);
    EndAt(cfg, st, walk, t, q);
  }

  /**
   Old names may be names of scanned files that need no work themselves: then the result of a push
   without failures is still a function of the tree and the state before - at every path that at
   most one file looks back to, with its queries answered.
   */
  lemma {:induction false} MildPushIsDetermined(cfg: Config, st: PushState, walk: seq<Entry>, t: Trace, q: string)
    requires CleanRun(cfg, st, walk, t) && MildOverlap(cfg, st.store, walk) && AnsweredAbout(t, q)
    ensures Get(After(cfg, st, walk, t).store, q) == MildRecord(cfg, st.remote, st.store, walk, q)
    ensures OneLooksBack(cfg, st.store, walk, q) ==> Get(After(cfg, st, walk, t).remote, q) == MildRemote(cfg, st.remote, st.store, walk, q)
  {
    if Find(cfg, walk, q).None? {
      UnseenRecordIs(cfg, st, walk, t, q);
      if OneLooksBack(cfg, st.store, walk, q) {
        UnseenRemoteIs(cfg, st, walk, t, q);
      }
    } else {
      var e := FoundIsInWalk(cfg, walk, q);
      ScannedRecordIs(cfg, st, walk, t, e);
      if LookedBackTo(cfg, st.store, walk, e) {
        if OneLooksBack(cfg, st.store, walk, q) {
          LookedBackRemoteIs(cfg, st, walk, t, e);
        }
      } else {
        AloneRemoteIs(cfg, st, walk, t, e);
      }
    }
  }

  // ---------------------------------------------------------------------------------------
  // Lite and Full, where overlap is mild
  // ---------------------------------------------------------------------------------------

  lemma {:induction false} BackIgnoresMode(cfg: Config, mode: ScanMode, store: View, e: Entry, q: string)
    ensures LooksBackTo(In(cfg, mode), store, e, q) <==> LooksBackTo(cfg, store, e, q)
  {
  }

  lemma {:induction false} TakenIgnoresMode(cfg: Config, remote: Remote, store: View, walk: seq<Entry>, q: string)
    ensures RecordTaken(In(cfg, Lite), remote, store, walk, q) <==> RecordTaken(In(cfg, Full), remote, store, walk, q)
  {
    forall i | 0 <= i < |walk|
      ensures Judge(In(cfg, Lite), store, walk[i]).Prepare? ==> Judge(In(cfg, Full), store, walk[i]) == Judge(In(cfg, Lite), store, walk[i])
      ensures Judge(In(cfg, Full), store, walk[i]).Prepare? && Judge(In(cfg, Full), store, walk[i]).request.stored.None? ==>
                Judge(In(cfg, Full), store, walk[i]) == Judge(In(cfg, Lite), store, walk[i])
    {
    }
  }

  /** What a Full scan finds no work for, a Lite scan finds no work for. */
  lemma {:induction false} MildInLite(cfg: Config, store: View, walk: seq<Entry>)
    requires MildOverlap(In(cfg, Full), store, walk)
    ensures MildOverlap(In(cfg, Lite), store, walk)
  {
    forall i, j | 0 <= i < |walk| && 0 <= j < |walk| && i != j && Marks(In(cfg, Lite), walk[j]) &&
                  LooksBackTo(In(cfg, Lite), store, walk[i], RemotePath(In(cfg, Lite), walk[j]))
      ensures Unworked(In(cfg, Lite), store, walk[j])
    {
      BackIgnoresMode(cfg, Lite, store, walk[i], RemotePath(cfg, walk[j]));
      BackIgnoresMode(cfg, Full, store, walk[i], RemotePath(cfg, walk[j]));
      assert Unworked(In(cfg, Full), store, walk[j]);
    }
  }

  /** Both scans foretell the same. */
  lemma {:induction false} MildSame(cfg: Config, remote: Remote, store: View, walk: seq<Entry>, q: string)
    requires KeysArePaths(store) && Steady(walk) && RecordsTell(cfg, store, walk) && LinksTell(cfg, remote, store, walk)
    requires Find(cfg, walk, q).Some? && Find(cfg, walk, q).value.kind.Regular? ==> Find(cfg, walk, q).value.kind.hashed.Some?
    ensures MildRemote(In(cfg, Lite), remote, store, walk, q) == MildRemote(In(cfg, Full), remote, store, walk, q)
    ensures SameButTime(MildRecord(In(cfg, Lite), remote, store, walk, q), MildRecord(In(cfg, Full), remote, store, walk, q))
  {
    FindIgnoresMode(cfg, Lite, walk, q);
    FindIgnoresMode(cfg, Full, walk, q);
    TakenIgnoresMode(cfg, remote, store, walk, q);
    MovedAwayIgnoresMode(cfg, remote, store, walk, q);
    if Find(cfg, walk, q).Some? {
      FoundSame(cfg, remote, store, walk, q);
    } else {
      UnfoundSame(cfg, remote, store, walk, q);
    }
  }

  lemma {:induction false} PreparedIsRead(cfg: Config, st: PushState, walk: seq<Entry>, t: Trace, q: string)
    requires CleanRun(cfg, st, walk, t) && Find(cfg, walk, q).Some? && Judge(cfg, st.store, Find(cfg, walk, q).value).Prepare?
    ensures Judge(cfg, st.store, Find(cfg, walk, q).value).request.hashed.Some?
  {
    var i := FoundRequest(cfg, st, walk, t, q);
    CleanPhases(cfg, st, walk, t);
    RequestsRead(cfg, AfterScan(cfg, st, walk), t.requests, t.fileOuts);
  }

  lemma {:induction false} LastRead(cfg: Config, st: PushState, requests: seq<Request>, outs: seq<FileOut>)
    requires |requests| == |outs| > 0 && Clean(Files(cfg, st, requests, outs))
    ensures requests[|requests| - 1].hashed.Some? && Clean(Files(cfg, st, requests[..|requests| - 1], outs[..|requests| - 1]))
  {
    var n := |requests| - 1;
    var before := Files(cfg, st, requests[..n], outs[..n]);
    StepIsHandle(cfg, before, requests[n], outs[n], requests[n].path);
  }

  lemma {:induction false} RequestsRead(cfg: Config, st: PushState, requests: seq<Request>, outs: seq<FileOut>)
    requires |requests| == |outs| && Clean(Files(cfg, st, requests, outs))
    ensures AllRead(requests)
  {
    if requests != [] {
      var n := |requests| - 1;
      LastRead(cfg, st, requests, outs);
      RequestsRead(cfg, st, requests[..n], outs[..n]);
      assert requests == requests[..n] + [requests[n]];
    }
  }

  lemma {:induction false} FullPrepares(cfg: Config, store: View, e: Entry)
    requires e.kind.Regular? && Marks(cfg, e) && !Judge(In(cfg, Full), store, e).Unreadable?
    ensures Judge(In(cfg, Full), store, e).Prepare? && Judge(In(cfg, Full), store, e).request.hashed == e.kind.hashed
  {
  }

  lemma {:induction false} FullReads(cfg: Config, st: PushState, walk: seq<Entry>, full: Trace, q: string)
    requires CleanRun(In(cfg, Full), st, walk, full)
    ensures Find(cfg, walk, q).Some? && Find(cfg, walk, q).value.kind.Regular? ==> Find(cfg, walk, q).value.kind.hashed.Some?
  {
    FindIgnoresMode(cfg, Full, walk, q);
    if Find(cfg, walk, q).Some? && Find(cfg, walk, q).value.kind.Regular? {
      var i := FoundIsInWalk(cfg, walk, q);
      NothingUnreadable(In(cfg, Full), st, walk, full, i);
      FullPrepares(cfg, st.store, walk[i]);
      PreparedIsRead(In(cfg, Full), st, walk, full, q);
    }
  }

  lemma {:induction false} OneBackIgnoresMode(cfg: Config, mode: ScanMode, store: View, walk: seq<Entry>, q: string)
    requires OneLooksBack(cfg, store, walk, q)
    ensures OneLooksBack(In(cfg, mode), store, walk, q)
  {
    forall i | 0 <= i < |walk|
      ensures LooksBackTo(In(cfg, mode), store, walk[i], q) <==> LooksBackTo(cfg, store, walk[i], q)
    {
      BackIgnoresMode(cfg, mode, store, walk[i], q);
    }
  }

  lemma {:induction false} MildPushInMode(cfg: Config, mode: ScanMode, st: PushState, walk: seq<Entry>, t: Trace, q: string)
    requires CleanRun(In(cfg, mode), st, walk, t) && MildOverlap(In(cfg, mode), st.store, walk) && AnsweredAbout(t, q)
    ensures Get(After(In(cfg, mode), st, walk, t).store, q) == MildRecord(In(cfg, mode), st.remote, st.store, walk, q)
    ensures OneLooksBack(cfg, st.store, walk, q) ==>
              Get(After(In(cfg, mode), st, walk, t).remote, q) == MildRemote(In(cfg, mode), st.remote, st.store, walk, q)
  {
    MildPushIsDetermined(In(cfg, mode), st, walk, t, q);
    if OneLooksBack(cfg, st.store, walk, q) {
      OneBackIgnoresMode(cfg, mode, st.store, walk, q);
    }
  }

  /**
   Lite and Full pushes without failures end alike under mild overlap too: the same path, hash,
   size and status in the record of every path whose queries were answered, and the same remote
   node if at most one file looks back to it.
   */
  lemma {:induction false} LiteRefinesFullWhereMild(cfg: Config, st: PushState, walk: seq<Entry>, lite: Trace, full: Trace, q: string)
    requires CleanRun(In(cfg, Lite), st, walk, lite) && CleanRun(In(cfg, Full), st, walk, full)
    requires MildOverlap(In(cfg, Full), st.store, walk) && AnsweredAbout(lite, q) && AnsweredAbout(full, q)
    requires Steady(walk) && RecordsTell(cfg, st.store, walk) && LinksTell(cfg, st.remote, st.store, walk)
    ensures SameButTime(Get(After(In(cfg, Lite), st, walk, lite).store, q), Get(After(In(cfg, Full), st, walk, full).store, q))
    ensures OneLooksBack(cfg, st.store, walk, q) ==>
              Get(After(In(cfg, Lite), st, walk, lite).remote, q) == Get(After(In(cfg, Full), st, walk, full).remote, q)
  {
    MildPushInMode(cfg, Full, st, walk, full, q);
    MildInLite(cfg, st.store, walk);
    MildPushInMode(cfg, Lite, st, walk, lite, q);
    FullReads(cfg, st, walk, full, q);
    MildSame(cfg, st.remote, st.store, walk, q);
  }

  // ---------------------------------------------------------------------------------------
  // A file with work of its own
  // ---------------------------------------------------------------------------------------

  /** A step without failures that records nothing of its own for the path puts no update of its record under way. */
  lemma {:induction false} FlushNoPending(st: PushState, out: FlushOut, q: string)
    requires Clean(Flush(st, out)) && LastFor(st.pending, q).None?
    ensures LastFor(Flush(st, out).pending, q).None?
  {
    if !st.halted && st.batch != [] {
      HandOverAt(st, st.batch, out, q);
    }
  }

  lemma {:induction false} EnqueueNoPending(cfg: Config, st: PushState, file: PendingPushFile, out: FileOut, q: string)
    requires Clean(Enqueue(cfg, st, file, out)) && LastFor(st.pending, q).None?
    ensures LastFor(Enqueue(cfg, st, file, out).pending, q).None?
  {
    var ready := if FlushBefore(st.batch, file, cfg.blob) then Flush(st, out.before) else st;
    var queued := ready.(batch := ready.batch + [file]);
    if FlushNow(queued.batch, cfg.blob) {
      FlushAt(queued, out.now, q);
    }
    if FlushBefore(st.batch, file, cfg.blob) {
      FlushNoPending(st, out.before, q);
    }
    if FlushNow(queued.batch, cfg.blob) {
      FlushNoPending(queued, out.now, q);
    }
  }

  lemma {:induction false} HandleNoPending(cfg: Config, st: PushState, r: Request, out: FileOut, q: string)
    requires r.hashed.Some? && Clean(Handle(cfg, st, r, out)) && LastFor(st.pending, q).None? && (r.path == q ==> !HashSame(r))
    ensures LastFor(Handle(cfg, st, r, out).pending, q).None?
  {
    match Decide(st.remote, st.mem, r, out)
    case HashSkip =>
      LastForOne(MetaOf(r), q);
      LastForAppend(st.pending, [MetaOf(r)], q);
    case Migrate =>
    case Adopt =>
    case Queue => EnqueueNoPending(cfg, st, Candidate(r), out, q);
  }

  lemma {:induction false} StepNoPending(cfg: Config, st: PushState, r: Request, out: FileOut, q: string)
    requires Clean(FileStep(cfg, st, r, out)) && LastFor(st.pending, q).None? && (r.path == q ==> !HashSame(r))
    ensures LastFor(FileStep(cfg, st, r, out).pending, q).None?
  {
    StepIsHandle(cfg, st, r, out, q);
    HandleNoPending(cfg, st, r, out, q);
    var handled := Handle(cfg, st, r, out);
    if Completed(handled.tally).processed % 100 == 0 {
      FlushNoPending(handled.(tally := Completed(handled.tally)), out.progress, q);
    }
  }

  /** Node and record of a path. */
  datatype PathFate = PathFate(node: Option<RemoteNode>, record: Option<FileSyncMeta>)

  /** A request that finds the path so, its own or another file's. */
  function Met(fate: PathFate, r: Request, waiting: bool, target: Option<RemoteNode>, q: string): PathFate {
    if r.path == q then if r.hashed.Some? then PathFate(Some(RFile(r.hashed.value.hash)), Some(MetaOf(r))) else fate
    else if !Asks(r, q) || waiting then fate
    else if Match(r, fate.record, fate.node) then PathFate(None, None)
    else if Adopts(r, fate.record, fate.node, target) then fate.(record := None)
    else fate
  }

  /** The path's file is waiting in the batch: neither server nor memory show it to those who look. */
  predicate Waits(cfg: Config, st: PushState, requests: seq<Request>, outs: seq<FileOut>, q: string, n: nat)
    requires n <= |requests| == |outs|
  {
    LastIn(Files(cfg, st, requests[..n], outs[..n]).batch, q).Some?
  }

  function Waiting(cfg: Config, st: PushState, requests: seq<Request>, outs: seq<FileOut>, q: string): (waiting: seq<bool>)
    requires |requests| == |outs|
    ensures |waiting| == |requests| && forall n :: 0 <= n < |requests| ==> waiting[n] == Waits(cfg, st, requests, outs, q, n)
  {
    seq(|requests|, n requires 0 <= n < |requests| => Waits(cfg, st, requests, outs, q, n))
  }

  /** What becomes of the path, in the order in which the files get ready. */
  function FateAt(st: PushState, requests: seq<Request>, waiting: seq<bool>, q: string, n: nat): PathFate
    requires n <= |requests| == |waiting|
  {
    if n == 0 then PathFate(Get(st.remote, q), Get(st.store, q))
    else Met(FateAt(st, requests, waiting, q, n - 1), requests[n - 1], waiting[n - 1], Get(st.remote, requests[n - 1].path), q)
  }

  /** Once everything under way is through, the state has this fate for the path; and nothing but the batch is under way. */
  ghost predicate Has(st: PushState, q: string, fate: PathFate) {
    VRemote(st, q) == fate.node && VRecord(st, q) == VMem(st, q) == fate.record && LastFor(st.pending, q).None?
  }

  /** The file there has changed or is new; those who look back to it got their answers and have new names of their own. */
  ghost predicate Worked(st: PushState, requests: seq<Request>, outs: seq<FileOut>, q: string)
    requires |requests| == |outs|
  {
    (forall i :: 0 <= i < |requests| && requests[i].path == q ==> !HashSame(requests[i]) && requests[i].stored == Get(st.store, q)) &&
    (forall i, j :: 0 <= i < j < |requests| ==> requests[i].path != q || requests[j].path != q) &&
    (forall i :: 0 <= i < |requests| && Asks(requests[i], q) && requests[i].path != q ==>
      outs[i].sourceAnswered && outs[i].targetAnswered && LeftAlone(requests, i, requests[i].path))
  }

  /** The file itself: uploaded, moved or adopted, it ends up there. */
  lemma {:induction false} OwnMet(cfg: Config, before: PushState, r: Request, out: FileOut)
    requires r.hashed.Some? && Clean(Handle(cfg, before, r, out)) && !HashSame(r) && LastIn(before.batch, r.path).None?
    requires LastFor(before.pending, r.path).None?
    ensures var after := Handle(cfg, before, r, out);
            VRecord(after, r.path) == VMem(after, r.path) == Some(MetaOf(r)) && VRemote(after, r.path) == Some(RFile(r.hashed.value.hash))
  {
    match Decide(before.remote, before.mem, r, out)
    case HashSkip =>
    case Migrate =>
    case Adopt =>
    case Queue => EnqueueAt(cfg, before, Candidate(r), out, r.path);
  }

  /** Another file that looks back to it. */
  lemma {:induction false} AskerMet(cfg: Config, before: PushState, r: Request, out: FileOut, q: string, fate: PathFate)
    requires r.hashed.Some? && Clean(Handle(cfg, before, r, out)) && Asks(r, q) && r.path != q && Has(before, q, fate)
    requires out.sourceAnswered && out.targetAnswered
    ensures var after := Handle(cfg, before, r, out);
            var met := Met(fate, r, LastIn(before.batch, q).Some?, Get(before.remote, r.path), q);
            VRemote(after, q) == met.node && VRecord(after, q) == VMem(after, q) == met.record
  {
    match Decide(before.remote, before.mem, r, out)
    case HashSkip =>
    case Migrate => MigratedAt(before, r, out.move, q);
    case Adopt => AdoptedAt(before, r, out.adopt, q);
    case Queue => EnqueueAt(cfg, before, Candidate(r), out, q);
  }

  lemma {:induction false} RequestMet(cfg: Config, before: PushState, r: Request, out: FileOut, q: string, fate: PathFate, target: Option<RemoteNode>)
    requires Clean(FileStep(cfg, before, r, out)) && Has(before, q, fate)
    requires r.path == q ==> !HashSame(r) && LastIn(before.batch, q).None?
    requires Asks(r, q) && r.path != q ==> out.sourceAnswered && out.targetAnswered && Get(before.remote, r.path) == target
    ensures Has(FileStep(cfg, before, r, out), q, Met(fate, r, LastIn(before.batch, q).Some?, target, q))
  {
    StepIsHandle(cfg, before, r, out, q);
    StepNoPending(cfg, before, r, out, q);
    if r.path == q {
      OwnMet(cfg, before, r, out);
    } else if Asks(r, q) {
      AskerMet(cfg, before, r, out, q, fate);
    } else {
      HandleOther(cfg, before, r, out, q);
    }
  }

  /** Before its own request the path is never in the batch. */
  lemma {:induction false} NotWaitingYet(cfg: Config, st: PushState, requests: seq<Request>, outs: seq<FileOut>, q: string, n: nat)
    requires n <= |requests| == |outs| && Fresh(st) && forall k :: 0 <= k < n ==> requests[k].path != q
    ensures !Waits(cfg, st, requests, outs, q, n)
  {
    if n > 0 {
      NotWaitingYet(cfg, st, requests, outs, q, n - 1);
      assert requests[..n][..n - 1] == requests[..n - 1] && outs[..n][..n - 1] == outs[..n - 1];
      StepWaitsNot(cfg, Files(cfg, st, requests[..n - 1], outs[..n - 1]), requests[n - 1], outs[n - 1], q);
    } else {
      assert requests[..0] == [] && outs[..0] == [];
    }
  }

  lemma {:induction false} StepWaitsNot(cfg: Config, before: PushState, r: Request, out: FileOut, q: string)
    requires LastIn(before.batch, q).None? && r.path != q
    ensures LastIn(FileStep(cfg, before, r, out).batch, q).None?
  {
    if !before.halted {
      if r.hashed.Some? {
        HandleIdle(cfg, before, r, out, |before.ledger.ops|, q);
        FileStepIdleBatch(cfg, before, r, out, q);
      } else {
        FlushOps(before.(tally := Completed(Failed(before.tally))), out.progress);
      }
    }
  }

  lemma {:induction false} OneMoreWorked(cfg: Config, st: PushState, requests: seq<Request>, outs: seq<FileOut>, q: string, n: nat, fate: PathFate)
    requires n < |requests| == |outs| && Clean(Files(cfg, st, requests[..n + 1], outs[..n + 1])) && Fresh(st) && Worked(st, requests, outs, q)
    requires Clean(Files(cfg, st, requests[..n], outs[..n])) && Has(Files(cfg, st, requests[..n], outs[..n]), q, fate)
    ensures Has(Files(cfg, st, requests[..n + 1], outs[..n + 1]), q,
                Met(fate, requests[n], Waits(cfg, st, requests, outs, q, n), Get(st.remote, requests[n].path), q))
  {
    var r, out := requests[n], outs[n];
    var before := Files(cfg, st, requests[..n], outs[..n]);
    assert requests[..n + 1][..n] == requests[..n] && outs[..n + 1][..n] == outs[..n];
    assert Files(cfg, st, requests[..n + 1], outs[..n + 1]) == FileStep(cfg, before, r, out);
    if r.path == q {
      NotWaitingYet(cfg, st, requests, outs, q, n);
    } else if Asks(r, q) {
      FilesOther(cfg, st, requests[..n], outs[..n], r.path);
    }
    RequestMet(cfg, before, r, out, q, fate, Get(st.remote, r.path));
  }

  lemma {:induction false} FilesWorked(cfg: Config, st: PushState, requests: seq<Request>, outs: seq<FileOut>, waiting: seq<bool>, q: string, n: nat)
    requires n <= |requests| == |outs| && Clean(Files(cfg, st, requests[..n], outs[..n])) && Fresh(st) && Worked(st, requests, outs, q)
    requires waiting == Waiting(cfg, st, requests, outs, q)
    ensures Has(Files(cfg, st, requests[..n], outs[..n]), q, FateAt(st, requests, waiting, q, n))
  {
    if n == 0 {
      assert requests[..0] == [] && outs[..0] == [];
    } else {
      CleanUpTo(cfg, st, requests, outs, n - 1);
      FilesWorked(cfg, st, requests, outs, waiting, q, n - 1);
      OneMoreWorked(cfg, st, requests, outs, q, n - 1, FateAt(st, requests, waiting, q, n - 1));
    }
  }

  lemma {:induction false} CleanUpTo(cfg: Config, st: PushState, requests: seq<Request>, outs: seq<FileOut>, n: nat)
    requires n < |requests| == |outs| && Clean(Files(cfg, st, requests[..n + 1], outs[..n + 1]))
    ensures Clean(Files(cfg, st, requests[..n], outs[..n]))
  {
    LastRead(cfg, st, requests[..n + 1], outs[..n + 1]);
    assert requests[..n + 1][..n] == requests[..n] && outs[..n + 1][..n] == outs[..n];
  }

  /** One request is the path's own, one other looks back to it. */
  ghost predicate OnlyTwo(requests: seq<Request>, q: string, i: nat, j: nat) {
    i < |requests| && j < |requests| && i != j &&
    forall k :: 0 <= k < |requests| ==> (requests[k].path == q <==> k == j) && (k != j ==> (Asks(requests[k], q) <==> k == i))
  }

  lemma {:induction false} FateOfTwo(st: PushState, requests: seq<Request>, waiting: seq<bool>, q: string, i: nat, j: nat, n: nat)
    requires |requests| == |waiting| && OnlyTwo(requests, q, i, j) && j < n <= |requests| && requests[j].hashed.Some?
    ensures var own := PathFate(Some(RFile(requests[j].hashed.value.hash)), Some(MetaOf(requests[j])));
            FateAt(st, requests, waiting, q, n) ==
            if j < i < n && !waiting[i] then Met(own, requests[i], false, Get(st.remote, requests[i].path), q) else own
  {
    if n - 1 != j {
      FateOfTwo(st, requests, waiting, q, i, j, n - 1);
    }
  }

  lemma {:induction false} TraceWorked(cfg: Config, st: PushState, walk: seq<Entry>, t: Trace, q: string, i: nat, j: nat)
    requires CleanRun(cfg, st, walk, t) && NewNamesFree(cfg, st.store, walk, q) && OneLooksBack(cfg, st.store, walk, q) && AnsweredAbout(t, q)
    requires i < |t.requests| && j < |t.requests| && i != j && Asks(t.requests[i], q) && t.requests[j].path == q && !HashSame(t.requests[j])
    ensures OnlyTwo(t.requests, q, i, j) && Worked(AfterScan(cfg, st, walk), t.requests, t.fileOuts, q)
  {
    forall k | 0 <= k < |t.requests|
      ensures t.requests[k].path == q <==> k == j
      ensures k != j ==> (Asks(t.requests[k], q) <==> k == i)
      ensures t.requests[k].stored == Get(st.store, t.requests[k].path)
      ensures Asks(t.requests[k], q) ==> LeftAlone(t.requests, k, t.requests[k].path)
    {
      var e := RequestEntry(cfg, st, walk, t, k);
      OneOfEach(cfg, st, walk, t, q, k, i, j);
      if Asks(t.requests[k], q) {
        AskerAlone(cfg, st, walk, t, q, k, e);
      }
    }
  }

  lemma {:induction false} OneOfEach(cfg: Config, st: PushState, walk: seq<Entry>, t: Trace, q: string, k: nat, i: nat, j: nat)
    requires ValidTrace(cfg, st, walk, t) && ProperWalk(walk) && OneLooksBack(cfg, st.store, walk, q)
    requires k < |t.requests| && i < |t.requests| && j < |t.requests| && Asks(t.requests[i], q) && t.requests[j].path == q
    ensures t.requests[k].path == q ==> k == j
    ensures Asks(t.requests[k], q) ==> k == i
  {
    var a := RequestEntry(cfg, st, walk, t, k);
    var b := RequestEntry(cfg, st, walk, t, i);
    var c := RequestEntry(cfg, st, walk, t, j);
    if k != j {
      RequestsDiffer(cfg, st, walk, t, k, j);
    }
    if k != i {
      RequestsDiffer(cfg, st, walk, t, k, i);
    }
    RequestOfBack(cfg, st.store, walk[a], t.requests[k]);
    RequestOfBack(cfg, st.store, walk[b], t.requests[i]);
  }

  lemma {:induction false} WorkedAtEnd(cfg: Config, st: PushState, walk: seq<Entry>, t: Trace, q: string, j: nat)
    requires CleanRun(cfg, st, walk, t) && j < |t.requests| && t.requests[j].path == q
    ensures var files := Files(cfg, AfterScan(cfg, st, walk), t.requests, t.fileOuts);
            Get(After(cfg, st, walk, t).remote, q) == VRemote(files, q) && Get(After(cfg, st, walk, t).store, q) == VRecord(files, q)
  {
    var e := RequestEntry(cfg, st, walk, t, j);
    ThroughLinks(cfg, st, walk, t, q);
    SeenAtEnd(cfg, st, walk, t, q);
  }

  lemma {:induction false} WorkedEnds(cfg: Config, st: PushState, walk: seq<Entry>, t: Trace, q: string, i: nat, j: nat)
    requires CleanRun(cfg, st, walk, t) && NewNamesFree(cfg, st.store, walk, q) && OneLooksBack(cfg, st.store, walk, q) && AnsweredAbout(t, q)
    requires i < |t.requests| && j < |t.requests| && i != j && Asks(t.requests[i], q) && t.requests[j].path == q && !HashSame(t.requests[j])
    ensures Clean(Files(cfg, AfterScan(cfg, st, walk), t.requests, t.fileOuts)) && t.requests[i].path != q && t.requests[j].hashed.Some?
    ensures var own := PathFate(Some(RFile(t.requests[j].hashed.value.hash)), Some(MetaOf(t.requests[j])));
            PathFate(Get(After(cfg, st, walk, t).remote, q), Get(After(cfg, st, walk, t).store, q)) ==
            if j < i && !Waits(cfg, AfterScan(cfg, st, walk), t.requests, t.fileOuts, q, i)
            then Met(own, t.requests[i], false, Get(st.remote, t.requests[i].path), q) else own
  {
    var start := AfterScan(cfg, st, walk);
    var n := |t.requests|;
    CleanPhases(cfg, st, walk, t);
    RequestsRead(cfg, start, t.requests, t.fileOuts);
    TraceWorked(cfg, st, walk, t, q, i, j);
    assert t.requests[..n] == t.requests && t.fileOuts[..n] == t.fileOuts;
    FilesWorked(cfg, start, t.requests, t.fileOuts, Waiting(cfg, start, t.requests, t.fileOuts, q), q, n);
    FateOfTwo(start, t.requests, Waiting(cfg, start, t.requests, t.fileOuts, q), q, i, j, n);
    WorkedAtEnd(cfg, st, walk, t, q, j);
  }

  /**
   A scanned file that is new or has changed, and whose name is the old name of one other file. If
   the other gets ready first, or while the file is still in the batch, the file ends up on the
   server under its record. Otherwise the other meets it there: it takes the file away if and only
   if it has the same content, and the record if and only if it does that or its own new name
   already holds its content.
   */
  lemma {:induction false} WorkedFileIsLostIff(cfg: Config, st: PushState, walk: seq<Entry>, t: Trace, q: string, i: nat, j: nat)
    requires CleanRun(cfg, st, walk, t) && NewNamesFree(cfg, st.store, walk, q) && OneLooksBack(cfg, st.store, walk, q) && AnsweredAbout(t, q)
    requires i < |t.requests| && j < |t.requests| && i != j && Asks(t.requests[i], q) && t.requests[j].path == q && !HashSame(t.requests[j])
    ensures t.requests[i].hashed.Some? && t.requests[j].hashed.Some?
    ensures var asker, own := t.requests[i].hashed.value.hash, t.requests[j].hashed.value.hash;
            var meets := j < i && !Waits(cfg, AfterScan(cfg, st, walk), t.requests, t.fileOuts, q, i);
            Get(After(cfg, st, walk, t).remote, q) == (if meets && asker == own then None else Some(RFile(own))) &&
            Get(After(cfg, st, walk, t).store, q) ==
              if meets && (asker == own || Get(st.remote, t.requests[i].path) == Some(RFile(asker))) then None else Some(MetaOf(t.requests[j]))
  {
    WorkedEnds(cfg, st, walk, t, q, i, j);
    RequestsRead(cfg, AfterScan(cfg, st, walk), t.requests, t.fileOuts);
  }

  /** A symlink is made after the files, whoever has looked back to its name. */
  lemma {:induction false} SymlinkIsMadeAnyway(cfg: Config, st: PushState, walk: seq<Entry>, t: Trace, q: string)
    requires CleanRun(cfg, st, walk, t) && Find(cfg, walk, q).Some? && Judge(cfg, st.store, Find(cfg, walk, q).value).MakeLink?
    ensures var task := Judge(cfg, st.store, Find(cfg, walk, q).value).task;
            Get(After(cfg, st, walk, t).remote, q) == Some(RLink(task.hash)) && Get(After(cfg, st, walk, t).store, q) == Some(LinkMeta(task))
  {
    CleanPhases(cfg, st, walk, t);
    TaskPathsDistinct(cfg, st, walk, t);
    FilesFlushed(cfg, st, walk, t, q);
    var i := FoundTask(cfg, st, walk, t, q);
    LinksFlushed(cfg, st, walk, t, q);
    SeenAtEnd(cfg, st, walk, t, q);
  }

  // ---------------------------------------------------------------------------------------
  // A root where it happens
  // ---------------------------------------------------------------------------------------

  /** Two copies of one large file, neither on record: one in the folder that was moved to its parent, one beside it. */
  predicate TwoLargeCopies(cfg: Config, walk: seq<Entry>) {
    TwoCopies(walk) && cfg.matchesFilter("x") && walk[0].kind.mtime.Some? && walk[1].kind.mtime.Some? &&
    walk[1].kind.hashed.value.size >= PUSH_BATCH_MAX_BYTES
  }

  /** The copy beside the folder gets ready first. */
  lemma {:induction false} CopiesPrepared(cfg: Config, walk: seq<Entry>) returns (a: Request, b: Request)
    requires cfg.migration == Some(TO_PARENT) && cfg.remoteBase == "/docs/" && cfg.localBase == ["home"] && TwoLargeCopies(cfg, walk)
    ensures Judge(cfg, map[], walk[0]) == Prepare(a) && Judge(cfg, map[], walk[1]) == Prepare(b)
    ensures ScanAll(cfg, map[], walk).requests == [a, b] && a.hashed.Some? && b.hashed == a.hashed && b.hashed.value.size >= PUSH_BATCH_MAX_BYTES
    ensures a.stored.None? && b.stored.None? && Asks(a, RemotePath(cfg, walk[1])) && b.path == RemotePath(cfg, walk[1]) && b.oldPath.None?
  {
    ParentNames(cfg, walk);
    a, b := Judge(cfg, map[], walk[0]).request, Judge(cfg, map[], walk[1]).request;
    assert walk[..1][..0] == [] && walk[..1] == [walk[0]];
    assert ScanAll(cfg, map[], walk[..1]) == ScanStep(cfg, map[], NO_SCAN, walk[0]);
  }

  lemma {:induction false} LargeFileFlushes(cfg: Config, st: PushState, file: PendingPushFile)
    requires Clean(st) && st.batch == [] && file.fileSize >= PUSH_BATCH_MAX_BYTES
    ensures Enqueue(cfg, st, file, WELL).batch == []
  {
    var queued := st.(batch := [file]);
    assert [file][..0] == [] && TotalBytes([file]) >= file.fileSize;
    FlushWell(queued);
    FlushAt(queued, LANDED, file.remotePath);
    assert [] + [file] == [file];
  }

  /** A file that fills a batch by itself is on the server when the next one is handled. */
  lemma {:induction false} LargeFileLands(cfg: Config, st: PushState, r: Request)
    requires Clean(st) && st.batch == [] && r.hashed.Some? && r.stored.None? && r.oldPath.None? && r.hashed.value.size >= PUSH_BATCH_MAX_BYTES
    ensures Files(cfg, st, [r], [WELL]).batch == []
  {
    LargeFileFlushes(cfg, st, Candidate(r));
    assert Handle(cfg, st, r, WELL).batch == [];
    assert [r][..0] == [] && [WELL][..0] == [];
    assert Files(cfg, st, [r], [WELL]) == FileStep(cfg, Files(cfg, st, [], []), r, WELL);
  }

  lemma {:induction false} CopiesLookBack(cfg: Config, walk: seq<Entry>)
    requires cfg.migration == Some(TO_PARENT) && cfg.remoteBase == "/docs/" && cfg.localBase == ["home"] && TwoLargeCopies(cfg, walk)
    ensures var q := RemotePath(cfg, walk[1]); NewNamesFree(cfg, map[], walk, q) && OneLooksBack(cfg, map[], walk, q)
    ensures ProperWalk(walk) && Find(cfg, walk, RemotePath(cfg, walk[1])) == Some(walk[1])
  {
    ParentNames(cfg, walk);
    MarkedIsFound(cfg, walk, 1);
  }

  lemma {:induction false} FirstNotWaiting(cfg: Config, st: PushState, walk: seq<Entry>, t: Trace, a: Request, b: Request, q: string)
    requires CleanRun(cfg, st, walk, t) && t.requests == [b, a] && t.fileOuts[0] == WELL
    requires b.hashed.Some? && b.stored.None? && b.oldPath.None? && b.hashed.value.size >= PUSH_BATCH_MAX_BYTES
    ensures !Waits(cfg, AfterScan(cfg, st, walk), t.requests, t.fileOuts, q, 1)
  {
    CleanPhases(cfg, st, walk, t);
    FilesKeepClean(cfg, AfterScan(cfg, st, walk), t.requests, t.fileOuts);
    assert t.requests[..1] == [b] && t.fileOuts[..1] == [WELL];
    LargeFileLands(cfg, AfterScan(cfg, st, walk), b);
  }

  /**
   The copy beside the folder is uploaded, and then the other one finds its old name taken by the
   very content it looks for and renames it away: after a push without failures the first copy is
   neither on the server nor on record.
   */
  lemma {:induction false} LargeCopyIsLost(cfg: Config, st: PushState, walk: seq<Entry>) returns (t: Trace)
    requires cfg.migration == Some(TO_PARENT) && cfg.remoteBase == "/docs/" && cfg.localBase == ["home"] && TwoLargeCopies(cfg, walk)
    requires st.store == map[] && st.ledger.overtaken == {}
    ensures CleanRun(cfg, st, walk, t)
    ensures var q := RemotePath(cfg, walk[1]);
            Find(cfg, walk, q) == Some(walk[1]) && q !in After(cfg, st, walk, t).remote && q !in After(cfg, st, walk, t).store
  {
    var q := RemotePath(cfg, walk[1]);
    var a, b := CopiesPrepared(cfg, walk);
    CopiesLookBack(cfg, walk);
    t := EveryOrderGoesWell(cfg, st, walk, [b, a]);
    FirstNotWaiting(cfg, st, walk, t, a, b, q);
    WorkedFileIsLostIff(cfg, st, walk, t, q, 1, 0);
  }
}
