/**
 Roots that overlap: the old name of one file is the name of another. What a push without
 failures then does to the other file, when the next push brings it back, and where the order
 in which files get ready decides.
 */
module PushOverlap {
  import opened Prelude
  import opened Chunks
  import opened Paths
  import opened Planning
  import opened Batching
  import opened MetadataStore
  import opened Push
  import opened PushAccounts
  import opened PushFacts
  import opened PushClean
  import opened PushResult
  import opened PushScans

  // ---------------------------------------------------------------------------------------
  // Who takes an old name
  // ---------------------------------------------------------------------------------------

  /** The content is the recorded one, and so are size, time and status: the file keeps its record as it is. */
  predicate Quiet(r: Request) {
    HashSame(r) && !NeedsUpdate(r.stored.value, r.hashed.value.size, r.mtime)
  }

  /** The move does not apply, but the file is at its new name already: the old record goes, the old file stays. */
  predicate Adopts(r: Request, record: Option<FileSyncMeta>, node: Option<RemoteNode>, target: Option<RemoteNode>) {
    r.hashed.Some? && r.stored.None? && r.oldPath.Some? && r.oldPath.value != r.path && record.Some? &&
    !Match(r, record, node) && target == Some(RFile(r.hashed.value.hash))
  }

  /** The verified move takes the file of this name, and its record. */
  predicate Moves(r: Request, q: string, remote: Remote, store: View) {
    Asks(r, q) && Match(r, Get(store, q), Get(remote, q))
  }

  /** The move or the adoption takes the record of this name. */
  predicate Takes(r: Request, q: string, remote: Remote, store: View) {
    Asks(r, q) && (Match(r, Get(store, q), Get(remote, q)) || Adopts(r, Get(store, q), Get(remote, q), Get(remote, r.path)))
  }

  /** The first request, in the order in which files got ready, that takes the record of this name. */
  function Taker(requests: seq<Request>, q: string, remote: Remote, store: View): Option<Request> {
    if requests == [] then None
    else
      var n := |requests| - 1;
      var earlier := Taker(requests[..n], q, remote, store);
      if earlier.Some? then earlier else if Takes(requests[n], q, remote, store) then Some(requests[n]) else None
  }

  lemma {:induction false} TakerTakes(requests: seq<Request>, q: string, remote: Remote, store: View)
    ensures var taker := Taker(requests, q, remote, store); taker.Some? ==> taker.value in requests && Takes(taker.value, q, remote, store)
    ensures forall i :: 0 <= i < |requests| && Takes(requests[i], q, remote, store) ==> Taker(requests, q, remote, store).Some?
  {
    if requests != [] {
      TakerTakes(requests[..|requests| - 1], q, remote, store);
    }
  }

  /**
   The path is another file's old name at most: its own file is content with its record, those
   that look for their old content here got their queries answered, and their new names are theirs alone.
   */
  ghost predicate Contended(requests: seq<Request>, outs: seq<FileOut>, q: string)
    requires |requests| == |outs|
  {
    forall i :: 0 <= i < |requests| ==>
      (requests[i].path == q ==> Quiet(requests[i])) &&
      (Asks(requests[i], q) ==> outs[i].sourceAnswered && outs[i].targetAnswered && LeftAlone(requests, i, requests[i].path))
  }

  /** What has become of the path: whoever takes it first decides. */
  ghost predicate Fated(st: PushState, after: PushState, taker: Option<Request>, q: string) {
    !InFlight(after, q) &&
    Get(after.mem, q) == Get(after.store, q) == (if taker.Some? then None else Get(st.store, q)) &&
    Get(after.remote, q) == if taker.Some? && Moves(taker.value, q, st.remote, st.store) then None else Get(st.remote, q)
  }

  lemma {:induction false} HandleContended(cfg: Config, st: PushState, before: PushState, r: Request, out: FileOut, taker: Option<Request>, q: string)
    requires r.hashed.Some? && Clean(Handle(cfg, before, r, out)) && Fated(st, before, taker, q)
    requires r.path == q ==> Quiet(r)
    requires Asks(r, q) ==> out.sourceAnswered && out.targetAnswered && Get(before.remote, r.path) == Get(st.remote, r.path)
    ensures Fated(st, Handle(cfg, before, r, out),
                  if taker.Some? then taker else if Takes(r, q, st.remote, st.store) then Some(r) else None, q)
  {
    if Asks(r, q) {
      match Decide(before.remote, before.mem, r, out)
      case HashSkip =>
      case Migrate => MigratedAt(before, r, out.move, q);
      case Adopt => AdoptedAt(before, r, out.adopt, q);
      case Queue => EnqueueAt(cfg, before, Candidate(r), out, q);
    } else if r.path != q {
      HandleOther(cfg, before, r, out, q);
    }
  }

  lemma {:induction false} FilesContended(cfg: Config, st: PushState, requests: seq<Request>, outs: seq<FileOut>, q: string)
    requires |requests| == |outs| && Clean(Files(cfg, st, requests, outs)) && Fresh(st) && Contended(requests, outs, q)
    ensures Fated(st, Files(cfg, st, requests, outs), Taker(requests, q, st.remote, st.store), q)
  {
    if requests != [] {
      var n := |requests| - 1;
      var before := Files(cfg, st, requests[..n], outs[..n]);
      StepIsHandle(cfg, before, requests[n], outs[n], q);
      ContendedFront(requests, outs, q);
      FilesContended(cfg, st, requests[..n], outs[..n], q);
      if Asks(requests[n], q) {
        FilesOther(cfg, st, requests[..n], outs[..n], requests[n].path);
      }
      HandleContended(cfg, st, before, requests[n], outs[n], Taker(requests[..n], q, st.remote, st.store), q);
    }
  }

  lemma {:induction false} ContendedFront(requests: seq<Request>, outs: seq<FileOut>, q: string)
    requires |requests| == |outs| > 0 && Contended(requests, outs, q)
    ensures Contended(requests[..|requests| - 1], outs[..|requests| - 1], q)
  {
    var n := |requests| - 1;
    forall i | 0 <= i < n && Asks(requests[i], q) ensures LeftAlone(requests[..n], i, requests[i].path) {
    }
  }

  // ---------------------------------------------------------------------------------------
  // The fate of an old name in a push without failures
  // ---------------------------------------------------------------------------------------

  /** The scan finds nothing to do for the entry, or the hash tells that there is nothing. */
  predicate Unworked(cfg: Config, store: View, e: Entry) {
    var v := Judge(cfg, store, e);
    v.Skip? || (v.Prepare? && Quiet(v.request))
  }

  /** A file without a record whose old name is this path. */
  predicate LooksBackTo(cfg: Config, store: View, e: Entry, q: string) {
    LooksBack(cfg, store, e) && OldPath(cfg, e) == Some(q)
  }

  /** The new names of those who look back to this path are nobody's old name. */
  ghost predicate NewNamesFree(cfg: Config, store: View, walk: seq<Entry>, q: string) {
    forall i, j :: 0 <= i < |walk| && 0 <= j < |walk| && i != j && LooksBackTo(cfg, store, walk[i], q) ==>
      !LooksBackTo(cfg, store, walk[j], RemotePath(cfg, walk[i]))
  }

  /** Whoever looked back to this path got its answers. */
  ghost predicate AnsweredAbout(t: Trace, q: string)
    requires |t.requests| == |t.fileOuts|
  {
    forall k :: 0 <= k < |t.requests| && Asks(t.requests[k], q) && t.requests[k].path != q ==> t.fileOuts[k].sourceAnswered && t.fileOuts[k].targetAnswered
  }

  /** A scanned entry takes the record of this path. */
  ghost predicate RecordTaken(cfg: Config, remote: Remote, store: View, walk: seq<Entry>, q: string) {
    exists i :: 0 <= i < |walk| && Judge(cfg, store, walk[i]).Prepare? && Takes(Judge(cfg, store, walk[i]).request, q, remote, store)
  }

  lemma {:induction false} TraceContended(cfg: Config, st: PushState, walk: seq<Entry>, t: Trace, q: string)
    requires CleanRun(cfg, st, walk, t) && NewNamesFree(cfg, st.store, walk, q) && AnsweredAbout(t, q)
    requires Find(cfg, walk, q).Some? ==> Unworked(cfg, st.store, Find(cfg, walk, q).value)
    ensures Contended(t.requests, t.fileOuts, q)
  {
    forall i | 0 <= i < |t.requests|
      ensures t.requests[i].path == q ==> Quiet(t.requests[i])
      ensures Asks(t.requests[i], q) ==> LeftAlone(t.requests, i, t.requests[i].path)
    {
      var e := RequestEntry(cfg, st, walk, t, i);
      if Asks(t.requests[i], q) {
        AskerAlone(cfg, st, walk, t, q, i, e);
      }
    }
  }

  lemma {:induction false} AskerAlone(cfg: Config, st: PushState, walk: seq<Entry>, t: Trace, q: string, i: nat, e: nat)
    requires CleanRun(cfg, st, walk, t) && NewNamesFree(cfg, st.store, walk, q) && i < |t.requests| && Asks(t.requests[i], q)
    requires e < |walk| && walk[e].kind.Regular? && Marks(cfg, walk[e]) && Judge(cfg, st.store, walk[e]) == Prepare(t.requests[i])
    ensures LeftAlone(t.requests, i, t.requests[i].path)
  {
    RequestOfBack(cfg, st.store, walk[e], t.requests[i]);
    forall j | 0 <= j < |t.requests| && j != i ensures !Touches(t.requests[j], t.requests[i].path) {
      AskersApart(cfg, st, walk, t, q, i, e, j);
    }
  }

  lemma {:induction false} AskersApart(cfg: Config, st: PushState, walk: seq<Entry>, t: Trace, q: string, i: nat, e: nat, j: nat)
    requires ValidTrace(cfg, st, walk, t) && ProperWalk(walk) && NewNamesFree(cfg, st.store, walk, q)
    requires i < |t.requests| && j < |t.requests| && i != j && e < |walk| && LooksBackTo(cfg, st.store, walk[e], q)
    requires Judge(cfg, st.store, walk[e]) == Prepare(t.requests[i])
    ensures !Touches(t.requests[j], t.requests[i].path)
  {
    var f := RequestEntry(cfg, st, walk, t, j);
    RequestsDiffer(cfg, st, walk, t, i, j);
    RequestOfBack(cfg, st.store, walk[f], t.requests[j]);
    if t.requests[j].path == t.requests[i].path {
      RemotePathInjective(walk[e].relative, walk[f].relative, cfg.remoteBase);
    }
  }

  /** A request asks about an old name if and only if its entry looks back to it. */
  lemma {:induction false} RequestOfBack(cfg: Config, store: View, e: Entry, r: Request)
    requires Judge(cfg, store, e) == Prepare(r)
    ensures forall q :: Asks(r, q) <==> LooksBackTo(cfg, store, e, q)
  {
  }

  lemma {:induction false} RequestsDiffer(cfg: Config, st: PushState, walk: seq<Entry>, t: Trace, i: nat, j: nat)
    requires ValidTrace(cfg, st, walk, t) && ProperWalk(walk) && i < |t.requests| && j < |t.requests| && i != j
    ensures t.requests[i] != t.requests[j]
  {
    ScanDistinct(cfg, st.store, walk);
    PermutationDistinct(t.requests, ScanAll(cfg, st.store, walk).requests);
  }

  /** In which order files get ready does not matter for whether a record is taken. */
  lemma {:induction false} TakerIffTaken(cfg: Config, st: PushState, walk: seq<Entry>, t: Trace, q: string)
    requires ValidTrace(cfg, st, walk, t) && ProperWalk(walk)
    ensures Taker(t.requests, q, st.remote, st.store).Some? <==> RecordTaken(cfg, st.remote, st.store, walk, q)
  {
    TakerTakes(t.requests, q, st.remote, st.store);
    if i :| 0 <= i < |t.requests| && Takes(t.requests[i], q, st.remote, st.store) {
      var e := RequestEntry(cfg, st, walk, t, i);
      assert Takes(Judge(cfg, st.store, walk[e]).request, q, st.remote, st.store);
    }
    if RecordTaken(cfg, st.remote, st.store, walk, q) {
      var e :| 0 <= e < |walk| && Judge(cfg, st.store, walk[e]).Prepare? && Takes(Judge(cfg, st.store, walk[e]).request, q, st.remote, st.store);
      RequestOf(cfg, st.store, walk, e);
      ScanDistinct(cfg, st.store, walk);
      PermutationDistinct(t.requests, ScanAll(cfg, st.store, walk).requests);
      assert Judge(cfg, st.store, walk[e]).request in t.requests;
    }
  }

  /** Neither cleanup nor deletions touch the path of a scanned entry. */
  lemma {:induction false} SeenAtEnd(cfg: Config, st: PushState, walk: seq<Entry>, t: Trace, q: string)
    requires CleanRun(cfg, st, walk, t) && Find(cfg, walk, q).Some?
    ensures Get(After(cfg, st, walk, t).remote, q) == Get(AfterLinks(cfg, st, walk, t).remote, q)
    ensures Get(After(cfg, st, walk, t).store, q) == Get(AfterLinks(cfg, st, walk, t).store, q)
  {
    SeenIsFound(cfg, st.store, walk, q);
    EndAt(cfg, st, walk, t, q);
    var cleaned := AfterCleanup(cfg, st, walk, t);
    DeletionsAt(cleaned, t.deletions, t.deleteOuts, q);
    assert q in t.deletions <==> q in Elements(t.deletions);
  }

  /**
   The fate of an old name, scanned or not: the first file that takes it decides. If that file
   moves, the old name is gone from the server; if it only adopts, or nobody takes it, it is as
   it was. A scanned file loses its record in both cases.
   */
  lemma {:induction false} OldNameFate(cfg: Config, st: PushState, walk: seq<Entry>, t: Trace, q: string)
    requires CleanRun(cfg, st, walk, t) && NewNamesFree(cfg, st.store, walk, q) && AnsweredAbout(t, q) && UnderOldBase(cfg, q)
    requires Find(cfg, walk, q).Some? ==> Unworked(cfg, st.store, Find(cfg, walk, q).value)
    ensures var taker := Taker(t.requests, q, st.remote, st.store);
            Get(After(cfg, st, walk, t).remote, q) ==
              (if taker.Some? && Moves(taker.value, q, st.remote, st.store) then None else Get(st.remote, q)) &&
            (Find(cfg, walk, q).Some? ==> Get(After(cfg, st, walk, t).store, q) == if taker.Some? then None else Get(st.store, q))
  {
    CleanPhases(cfg, st, walk, t);
    TraceContended(cfg, st, walk, t, q);
    FilesContended(cfg, AfterScan(cfg, st, walk), t.requests, t.fileOuts, q);
    ThroughLinks(cfg, st, walk, t, q);
    SeenIsFound(cfg, st.store, walk, q);
    EndAt(cfg, st, walk, t, q);
    if Find(cfg, walk, q).Some? {
      SeenAtEnd(cfg, st, walk, t, q);
    }
  }

  /** With one file looking back, the one that takes the record is the one that would move. */
  lemma {:induction false} OneMover(cfg: Config, st: PushState, walk: seq<Entry>, t: Trace, q: string)
    requires ValidTrace(cfg, st, walk, t) && ProperWalk(walk) && OneLooksBack(cfg, st.store, walk, q)
    requires MovedAway(cfg, st.remote, st.store, walk, q)
    ensures var taker := Taker(t.requests, q, st.remote, st.store); taker.Some? && Moves(taker.value, q, st.remote, st.store)
  {
    var e :| 0 <= e < |walk| && Judge(cfg, st.store, walk[e]).Prepare? && Judge(cfg, st.store, walk[e]).request.oldPath == Some(q) &&
             Match(Judge(cfg, st.store, walk[e]).request, Get(st.store, q), Get(st.remote, q));
    RequestOfBack(cfg, st.store, walk[e], Judge(cfg, st.store, walk[e]).request);
    TakerIffTaken(cfg, st, walk, t, q);
    assert Takes(Judge(cfg, st.store, walk[e]).request, q, st.remote, st.store);
    var f := TakerEntry(cfg, st, walk, t, q);
    assert LooksBackTo(cfg, st.store, walk[f], q) && LooksBackTo(cfg, st.store, walk[e], q);
  }

  lemma {:induction false} TakerEntry(cfg: Config, st: PushState, walk: seq<Entry>, t: Trace, q: string) returns (e: nat)
    requires ValidTrace(cfg, st, walk, t) && ProperWalk(walk) && Taker(t.requests, q, st.remote, st.store).Some?
    ensures e < |walk| && Judge(cfg, st.store, walk[e]) == Prepare(Taker(t.requests, q, st.remote, st.store).value)
    ensures LooksBackTo(cfg, st.store, walk[e], q) && Takes(Judge(cfg, st.store, walk[e]).request, q, st.remote, st.store)
  {
    TakerTakes(t.requests, q, st.remote, st.store);
    var taker := Taker(t.requests, q, st.remote, st.store).value;
    var i :| 0 <= i < |t.requests| && t.requests[i] == taker;
    e := RequestEntry(cfg, st, walk, t, i);
    RequestOfBack(cfg, st.store, walk[e], taker);
  }

  /**
   A scanned file whose name is another file's old name, and that needs no work itself: in a
   push without failures its record is gone if and only if a verified move or an adoption
   applies to it, and its remote file if and only if the verified move does.
   */
  lemma {:induction false} OverlappedFileIsLostIff(cfg: Config, st: PushState, walk: seq<Entry>, t: Trace, q: string)
    requires CleanRun(cfg, st, walk, t) && NewNamesFree(cfg, st.store, walk, q) && AnsweredAbout(t, q) && UnderOldBase(cfg, q)
    requires Find(cfg, walk, q).Some? && Unworked(cfg, st.store, Find(cfg, walk, q).value)
    requires q in st.store && q in st.remote
    ensures q !in After(cfg, st, walk, t).store <==> RecordTaken(cfg, st.remote, st.store, walk, q)
    ensures OneLooksBack(cfg, st.store, walk, q) ==>
              (q !in After(cfg, st, walk, t).remote <==> MovedAway(cfg, st.remote, st.store, walk, q))
  {
    OldNameFate(cfg, st, walk, t, q);
    TakerIffTaken(cfg, st, walk, t, q);
    if Taker(t.requests, q, st.remote, st.store).Some? {
      var e := TakerEntry(cfg, st, walk, t, q);
    }
    if OneLooksBack(cfg, st.store, walk, q) && MovedAway(cfg, st.remote, st.store, walk, q) {
      OneMover(cfg, st, walk, t, q);
    }
  }

  /** At most one file without a record has this old name. */
  ghost predicate OneLooksBack(cfg: Config, store: View, walk: seq<Entry>, q: string) {
    forall i, j :: 0 <= i < |walk| && 0 <= j < |walk| && LooksBackTo(cfg, store, walk[i], q) && LooksBackTo(cfg, store, walk[j], q) ==> i == j
  }

  // ---------------------------------------------------------------------------------------
  // A file whose record only needs a new size, time or status
  // ---------------------------------------------------------------------------------------

  function HashAt(view: View, q: string): Option<Digest> {
    if q in view then Some(view[q].contentHash) else None
  }

  /** The last request that looks back to this path. */
  function Asker(requests: seq<Request>, q: string): Option<Request> {
    if requests == [] then None
    else if Asks(requests[|requests| - 1], q) then Some(requests[|requests| - 1])
    else Asker(requests[..|requests| - 1], q)
  }

  /** Until somebody looks back, server and memory know the content as before; from then on the move has decided. */
  ghost predicate RemoteFated(st: PushState, after: PushState, asker: Option<Request>, q: string) {
    LastIn(after.batch, q).None? &&
    if asker.None? then Get(after.remote, q) == Get(st.remote, q) && HashAt(after.mem, q) == HashAt(st.store, q)
    else Get(after.remote, q) == if Moves(asker.value, q, st.remote, st.store) then None else Get(st.remote, q)
  }

  lemma {:induction false} HandleFated(cfg: Config, st: PushState, before: PushState, r: Request, out: FileOut, asker: Option<Request>, q: string)
    requires r.hashed.Some? && Clean(Handle(cfg, before, r, out)) && RemoteFated(st, before, asker, q)
    requires r.path == q ==> HashSame(r) && r.stored == Get(st.store, q)
    requires Asks(r, q) ==> asker.None? && out.sourceAnswered
    ensures RemoteFated(st, Handle(cfg, before, r, out), if Asks(r, q) then Some(r) else asker, q)
  {
    HandleIdle(cfg, before, r, out, |before.ledger.ops|, q);
    if Asks(r, q) {
      match Decide(before.remote, before.mem, r, out)
      case HashSkip =>
      case Migrate => MigratedAt(before, r, out.move, q);
      case Adopt => AdoptedAt(before, r, out.adopt, q);
      case Queue => EnqueueAt(cfg, before, Candidate(r), out, q);
    } else if r.path != q {
      HandleOther(cfg, before, r, out, q);
    }
  }

  lemma {:induction false} SameFated(st: PushState, a: PushState, b: PushState, asker: Option<Request>, q: string)
    requires RemoteFated(st, a, asker, q) && SameAt(a, b, q) && LastIn(b.batch, q).None?
    ensures RemoteFated(st, b, asker, q)
  {
  }

  lemma {:induction false} StepFated(cfg: Config, st: PushState, before: PushState, r: Request, out: FileOut, asker: Option<Request>, q: string)
    requires Clean(FileStep(cfg, before, r, out)) && RemoteFated(st, before, asker, q)
    requires r.path == q ==> HashSame(r) && r.stored == Get(st.store, q)
    requires Asks(r, q) ==> asker.None? && out.sourceAnswered
    ensures RemoteFated(st, FileStep(cfg, before, r, out), if Asks(r, q) then Some(r) else asker, q)
  {
    StepIsHandle(cfg, before, r, out, q);
    HandleFated(cfg, st, before, r, out, asker, q);
    FileStepIdleBatch(cfg, before, r, out, q);
    SameFated(st, Handle(cfg, before, r, out), FileStep(cfg, before, r, out), if Asks(r, q) then Some(r) else asker, q);
  }

  lemma {:induction false} FileStepIdleBatch(cfg: Config, before: PushState, r: Request, out: FileOut, q: string)
    requires r.hashed.Some? && LastIn(Handle(cfg, before, r, out).batch, q).None?
    ensures LastIn(Complete(Handle(cfg, before, r, out), out.progress).batch, q).None?
  {
    var handled := Handle(cfg, before, r, out);
    FlushOps(handled.(tally := Completed(handled.tally)), out.progress);
  }

  /** One request looks back to the path at most, its query was answered, and the path's own request has the recorded content. */
  ghost predicate OneAsks(st: PushState, requests: seq<Request>, outs: seq<FileOut>, q: string)
    requires |requests| == |outs|
  {
    (forall i :: 0 <= i < |requests| && requests[i].path == q ==> HashSame(requests[i]) && requests[i].stored == Get(st.store, q)) &&
    (forall i :: 0 <= i < |requests| && Asks(requests[i], q) ==> outs[i].sourceAnswered) &&
    (forall i, j :: 0 <= i < j < |requests| ==> !Asks(requests[i], q) || !Asks(requests[j], q))
  }

  lemma {:induction false} NobodyAsks(requests: seq<Request>, q: string)
    requires forall i :: 0 <= i < |requests| ==> !Asks(requests[i], q)
    ensures Asker(requests, q).None?
  {
    if requests != [] {
      NobodyAsks(requests[..|requests| - 1], q);
    }
  }

  lemma {:induction false} FilesFated(cfg: Config, st: PushState, requests: seq<Request>, outs: seq<FileOut>, q: string)
    requires |requests| == |outs| && Clean(Files(cfg, st, requests, outs)) && Fresh(st) && OneAsks(st, requests, outs, q)
    ensures RemoteFated(st, Files(cfg, st, requests, outs), Asker(requests, q), q)
  {
    if requests != [] {
      var n := |requests| - 1;
      var before := Files(cfg, st, requests[..n], outs[..n]);
      StepIsHandle(cfg, before, requests[n], outs[n], q);
      FilesFated(cfg, st, requests[..n], outs[..n], q);
      if Asks(requests[n], q) {
        NobodyAsks(requests[..n], q);
      }
      StepFated(cfg, st, before, requests[n], outs[n], Asker(requests[..n], q), q);
    }
  }

  lemma {:induction false} TraceAsksOnce(cfg: Config, st: PushState, walk: seq<Entry>, t: Trace, q: string)
    requires CleanRun(cfg, st, walk, t) && OneLooksBack(cfg, st.store, walk, q) && AnsweredAbout(t, q)
    requires Find(cfg, walk, q).Some?
    requires var v := Judge(cfg, st.store, Find(cfg, walk, q).value); v.Skip? || (v.Prepare? && HashSame(v.request))
    ensures OneAsks(AfterScan(cfg, st, walk), t.requests, t.fileOuts, q)
  {
    forall i | 0 <= i < |t.requests|
      ensures t.requests[i].path == q ==> HashSame(t.requests[i]) && t.requests[i].stored == Get(st.store, q)
      ensures forall j :: i < j < |t.requests| && Asks(t.requests[i], q) ==> !Asks(t.requests[j], q)
    {
      var e := RequestEntry(cfg, st, walk, t, i);
      RequestOfBack(cfg, st.store, walk[e], t.requests[i]);
      forall j | i < j < |t.requests| && Asks(t.requests[i], q) ensures !Asks(t.requests[j], q) {
        var f := RequestEntry(cfg, st, walk, t, j);
        RequestOfBack(cfg, st.store, walk[f], t.requests[j]);
        RequestsDiffer(cfg, st, walk, t, i, j);
      }
    }
  }

  lemma {:induction false} AskerMovesIff(cfg: Config, st: PushState, walk: seq<Entry>, t: Trace, q: string)
    requires ValidTrace(cfg, st, walk, t) && ProperWalk(walk)
    requires forall i, j :: 0 <= i < j < |t.requests| ==> !Asks(t.requests[i], q) || !Asks(t.requests[j], q)
    ensures var asker := Asker(t.requests, q);
            (asker.Some? && Moves(asker.value, q, st.remote, st.store)) <==> MovedAway(cfg, st.remote, st.store, walk, q)
  {
    AskerAsks(t.requests, q);
    if Asker(t.requests, q).Some? {
      var i :| 0 <= i < |t.requests| && t.requests[i] == Asker(t.requests, q).value;
      var e := RequestEntry(cfg, st, walk, t, i);
      assert Judge(cfg, st.store, walk[e]).request == t.requests[i];
    }
    if MovedAway(cfg, st.remote, st.store, walk, q) {
      var e :| 0 <= e < |walk| && Judge(cfg, st.store, walk[e]).Prepare? && Judge(cfg, st.store, walk[e]).request.oldPath == Some(q) &&
               Match(Judge(cfg, st.store, walk[e]).request, Get(st.store, q), Get(st.remote, q));
      RequestOf(cfg, st.store, walk, e);
      ScanDistinct(cfg, st.store, walk);
      PermutationDistinct(t.requests, ScanAll(cfg, st.store, walk).requests);
      var i :| 0 <= i < |t.requests| && t.requests[i] == Judge(cfg, st.store, walk[e]).request;
      assert Asks(t.requests[i], q);
    }
  }

  lemma {:induction false} AskerAsks(requests: seq<Request>, q: string)
    requires forall i, j :: 0 <= i < j < |requests| ==> !Asks(requests[i], q) || !Asks(requests[j], q)
    ensures Asker(requests, q).Some? ==> Asker(requests, q).value in requests && Asks(Asker(requests, q).value, q)
    ensures forall i :: 0 <= i < |requests| && Asks(requests[i], q) ==> Asker(requests, q) == Some(requests[i])
  {
    if requests != [] {
      var n := |requests| - 1;
      AskerAsks(requests[..n], q);
    }
  }

  /**
   A scanned file that is passed over, or whose hash is the recorded one - its record may be
   rewritten in the same push, before or after: its remote file is gone if and only if the
   verified move applies to it.
   */
  lemma {:induction false} HashSkippedFileIsLostIff(cfg: Config, st: PushState, walk: seq<Entry>, t: Trace, q: string)
    requires CleanRun(cfg, st, walk, t) && OneLooksBack(cfg, st.store, walk, q) && AnsweredAbout(t, q) && q in st.remote
    requires Find(cfg, walk, q).Some?
    requires var v := Judge(cfg, st.store, Find(cfg, walk, q).value); v.Skip? || (v.Prepare? && HashSame(v.request))
    ensures q !in After(cfg, st, walk, t).remote <==> MovedAway(cfg, st.remote, st.store, walk, q)
  {
    CleanPhases(cfg, st, walk, t);
    TraceAsksOnce(cfg, st, walk, t, q);
    FilesFated(cfg, AfterScan(cfg, st, walk), t.requests, t.fileOuts, q);
    AskerMovesIff(cfg, st, walk, t, q);
    ThroughLinks(cfg, st, walk, t, q);
    SeenAtEnd(cfg, st, walk, t, q);
  }

  // ---------------------------------------------------------------------------------------
  // When the next push has work
  // ---------------------------------------------------------------------------------------

  /** A file's old name may be the name of a scanned entry, but only of one that needs no work itself. */
  ghost predicate MildOverlap(cfg: Config, store: View, walk: seq<Entry>) {
    forall i, j :: 0 <= i < |walk| && 0 <= j < |walk| && i != j && Marks(cfg, walk[j]) && LooksBackTo(cfg, store, walk[i], RemotePath(cfg, walk[j])) ==>
      Unworked(cfg, store, walk[j])
  }

  /** Overlaps of names are the only ones that count. */
  lemma {:induction false} ApartIsMild(cfg: Config, remote: Remote, store: View, walk: seq<Entry>)
    requires NonOverlap(cfg, store, walk)
    ensures MildOverlap(cfg, store, walk)
    ensures forall q :: Find(cfg, walk, q).Some? ==> !RecordTaken(cfg, remote, store, walk, q)
  {
    forall q | Find(cfg, walk, q).Some? ensures !RecordTaken(cfg, remote, store, walk, q) {
      var j := FoundIsInWalk(cfg, walk, q);
    }
  }

  lemma {:induction false} BackHasWork(cfg: Config, store: View, e: Entry)
    requires LooksBack(cfg, store, e)
    ensures !Unworked(cfg, store, e)
  {
  }

  /** A file without a record has work, so nobody looks back to its name. */
  lemma {:induction false} MildIsFree(cfg: Config, store: View, walk: seq<Entry>, q: string)
    requires MildOverlap(cfg, store, walk)
    ensures NewNamesFree(cfg, store, walk, q)
  {
    forall i, j | 0 <= i < |walk| && 0 <= j < |walk| && i != j && LooksBackTo(cfg, store, walk[i], q)
      ensures !LooksBackTo(cfg, store, walk[j], RemotePath(cfg, walk[i]))
    {
      BackHasWork(cfg, store, walk[i]);
    }
  }

  /** Some other entry looks back to the path of this one. */
  ghost predicate LookedBackTo(cfg: Config, store: View, walk: seq<Entry>, e: nat)
    requires e < |walk|
  {
    exists i :: 0 <= i < |walk| && i != e && LooksBackTo(cfg, store, walk[i], RemotePath(cfg, walk[e]))
  }

  /** If nobody else looks back to it, a scanned path is its own entry's alone. */
  lemma {:induction false} EntryAlone(cfg: Config, st: PushState, walk: seq<Entry>, t: Trace, e: nat, i: nat)
    requires ValidTrace(cfg, st, walk, t) && ProperWalk(walk) && e < |walk| && Marks(cfg, walk[e]) && !LookedBackTo(cfg, st.store, walk, e)
    requires i < |t.requests| && Judge(cfg, st.store, walk[e]) != Prepare(t.requests[i])
    ensures !Touches(t.requests[i], RemotePath(cfg, walk[e]))
  {
    var f := RequestEntry(cfg, st, walk, t, i);
    RequestOfBack(cfg, st.store, walk[f], t.requests[i]);
    MarkedIsFound(cfg, walk, e);
  }

  /** The record of a scanned path after a push without failures. */
  lemma {:induction false} ScannedRecordIs(cfg: Config, st: PushState, walk: seq<Entry>, t: Trace, e: nat)
    requires CleanRun(cfg, st, walk, t) && MildOverlap(cfg, st.store, walk) && e < |walk| && Marks(cfg, walk[e])
    requires AnsweredAbout(t, RemotePath(cfg, walk[e]))
    ensures var q := RemotePath(cfg, walk[e]);
            Get(After(cfg, st, walk, t).store, q) ==
              (if RecordTaken(cfg, st.remote, st.store, walk, q) then None else FinalRecord(cfg, st.store, walk, q)) &&
            (Judge(cfg, st.store, walk[e]).Prepare? ==> Judge(cfg, st.store, walk[e]).request.hashed.Some?)
  {
    var q := RemotePath(cfg, walk[e]);
    MarkedIsFound(cfg, walk, e);
    if LookedBackTo(cfg, st.store, walk, e) {
      LookedBackRecordIs(cfg, st, walk, t, e);
    } else {
      SeenAtEnd(cfg, st, walk, t, q);
      forall i | 0 <= i < |walk| && Judge(cfg, st.store, walk[i]).Prepare?
        ensures !Takes(Judge(cfg, st.store, walk[i]).request, q, st.remote, st.store)
      {
        RequestOfBack(cfg, st.store, walk[i], Judge(cfg, st.store, walk[i]).request);
      }
      AloneRecordIs(cfg, st, walk, t, e);
    }
  }

  lemma {:induction false} AloneRecordIs(cfg: Config, st: PushState, walk: seq<Entry>, t: Trace, e: nat)
    requires CleanRun(cfg, st, walk, t) && e < |walk| && Marks(cfg, walk[e]) && !LookedBackTo(cfg, st.store, walk, e)
    requires Find(cfg, walk, RemotePath(cfg, walk[e])) == Some(walk[e])
    ensures var q := RemotePath(cfg, walk[e]);
            Get(AfterLinks(cfg, st, walk, t).store, q) == FinalRecord(cfg, st.store, walk, q) &&
            (Judge(cfg, st.store, walk[e]).Prepare? ==> Judge(cfg, st.store, walk[e]).request.hashed.Some?)
  {
    var q := RemotePath(cfg, walk[e]);
    if Judge(cfg, st.store, walk[e]).Prepare? {
      var i := FoundRequest(cfg, st, walk, t, q);
      forall j | 0 <= j < |t.requests| && j != i ensures !Touches(t.requests[j], t.requests[i].path) {
        RequestsDiffer(cfg, st, walk, t, i, j);
        EntryAlone(cfg, st, walk, t, e, j);
      }
      OwnResultAlone(cfg, st, walk, t, i);
    } else {
      forall j | 0 <= j < |t.requests| ensures !Touches(t.requests[j], q) {
        EntryAlone(cfg, st, walk, t, e, j);
      }
      UntouchedResult(cfg, st, walk, t, q);
    }
  }

  /** An entry without work ends up with the record it has. */
  lemma {:induction false} UnworkedRecordStays(cfg: Config, store: View, walk: seq<Entry>, e: nat)
    requires KeysArePaths(store) && e < |walk| && Unworked(cfg, store, walk[e]) && Find(cfg, walk, RemotePath(cfg, walk[e])) == Some(walk[e])
    ensures FinalRecord(cfg, store, walk, RemotePath(cfg, walk[e])) == Get(store, RemotePath(cfg, walk[e]))
  {
  }

  lemma {:induction false} LookedBackRecordIs(cfg: Config, st: PushState, walk: seq<Entry>, t: Trace, e: nat)
    requires CleanRun(cfg, st, walk, t) && MildOverlap(cfg, st.store, walk) && e < |walk| && Marks(cfg, walk[e])
    requires AnsweredAbout(t, RemotePath(cfg, walk[e])) && LookedBackTo(cfg, st.store, walk, e)
    ensures var q := RemotePath(cfg, walk[e]);
            Unworked(cfg, st.store, walk[e]) &&
            Get(After(cfg, st, walk, t).store, q) ==
              if RecordTaken(cfg, st.remote, st.store, walk, q) then None else FinalRecord(cfg, st.store, walk, q)
  {
    var q := RemotePath(cfg, walk[e]);
    MarkedIsFound(cfg, walk, e);
    var i :| 0 <= i < |walk| && i != e && LooksBackTo(cfg, st.store, walk[i], q);
    assert Unworked(cfg, st.store, walk[e]);
    UnworkedRecordStays(cfg, st.store, walk, e);
    OldNameUnderOldBase(cfg, walk[i]);
    MildIsFree(cfg, st.store, walk, q);
    OldNameFate(cfg, st, walk, t, q);
    TakerIffTaken(cfg, st, walk, t, q);
  }

  /** A record that nobody took lets the next Lite scan pass over the entry. */
  lemma {:induction false} UntakenIsPassedOver(cfg: Config, st: PushState, walk: seq<Entry>, t: Trace, e: nat)
    requires CleanRun(cfg, st, walk, t) && MildOverlap(cfg, st.store, walk) && Steady(walk) && e < |walk|
    requires Marks(cfg, walk[e]) ==>
               AnsweredAbout(t, RemotePath(cfg, walk[e])) && !RecordTaken(cfg, st.remote, st.store, walk, RemotePath(cfg, walk[e]))
    ensures var v := Judge(Next(cfg), After(cfg, st, walk, t).store, walk[e]); v.Ignore? || v.Skip?
  {
    NothingUnreadable(cfg, st, walk, t, e);
    if Marks(cfg, walk[e]) {
      MarkedIsFound(cfg, walk, e);
      ScannedRecordIs(cfg, st, walk, t, e);
      RecordSettles(cfg, st.store, walk, e, After(cfg, st, walk, t).store);
    }
  }

  // ---------------------------------------------------------------------------------------
  // A request that is queued is handed over
  // ---------------------------------------------------------------------------------------

  lemma {:induction false} UploadsStay(a: seq<Op>, b: seq<Op>, k: nat, q: string)
    requires a <= b && !NoUploads(a, k, q)
    ensures !NoUploads(b, k, q)
  {
    var i :| k <= i < |a| && a[i].Upload? && LastIn(a[i].files, q).Some?;
    assert b[i] == a[i];
  }

  lemma {:induction false} FlushBusy(st: PushState, out: FlushOut, k: nat, q: string)
    requires !Idle(st, k, q) && k <= |st.ledger.ops|
    ensures !Idle(Flush(st, out), k, q) && |Flush(st, out).ledger.ops| >= k
    ensures !Flush(st, out).halted ==> !NoUploads(Flush(st, out).ledger.ops, k, q)
  {
    FlushOps(st, out);
    var ops := Flush(st, out).ledger.ops;
    if !NoUploads(st.ledger.ops, k, q) {
      UploadsStay(st.ledger.ops, ops, k, q);
    } else if !st.halted {
      assert ops[|st.ledger.ops|] == Upload(st.batch);
    }
  }

  lemma {:induction false} CompleteBusy(st: PushState, out: FlushOut, k: nat, q: string)
    requires !Idle(st, k, q) && k <= |st.ledger.ops|
    ensures !Idle(Complete(st, out), k, q) && |Complete(st, out).ledger.ops| >= k
  {
    FlushBusy(st.(tally := Completed(st.tally)), out, k, q);
  }

  lemma {:induction false} EnqueueBusy(cfg: Config, st: PushState, file: PendingPushFile, out: FileOut, k: nat, q: string)
    requires k <= |st.ledger.ops| && (file.remotePath == q || !Idle(st, k, q))
    ensures var after := Enqueue(cfg, st, file, out); |after.ledger.ops| >= k && (!after.halted ==> !Idle(after, k, q))
  {
    FlushOps(st, out.before);
    if !Idle(st, k, q) {
      FlushBusy(st, out.before, k, q);
    }
    var ready := if FlushBefore(st.batch, file, cfg.blob) then Flush(st, out.before) else st;
    LastInAppend(ready.batch, file, q);
    FlushBusy(ready.(batch := ready.batch + [file]), out.now, k, q);
  }

  lemma {:induction false} FileStepBusy(cfg: Config, st: PushState, r: Request, out: FileOut, k: nat, q: string)
    requires k <= |st.ledger.ops| && !st.halted && !FileStep(cfg, st, r, out).halted
    requires !Idle(st, k, q) || (r.path == q && r.hashed.Some? && Decide(st.remote, st.mem, r, out).Queue?)
    ensures !Idle(FileStep(cfg, st, r, out), k, q)
  {
    if r.hashed.None? {
      CompleteBusy(st.(tally := Failed(st.tally)), out.progress, k, q);
    } else {
      if Decide(st.remote, st.mem, r, out).Queue? {
        EnqueueBusy(cfg, st, Candidate(r), out, k, q);
      } else {
        NotQueued(cfg, st, r, out);
        if !NoUploads(st.ledger.ops, k, q) {
          UploadsStay(st.ledger.ops, Handle(cfg, st, r, out).ledger.ops, k, q);
        }
      }
      CompleteBusy(Handle(cfg, st, r, out), out.progress, k, q);
    }
  }

  /** Without a record and without an old name nothing but an upload is left. */
  lemma {:induction false} FilesBusy(cfg: Config, st: PushState, requests: seq<Request>, outs: seq<FileOut>, i: nat)
    requires |requests| == |outs| && i < |requests| && !Files(cfg, st, requests, outs).halted
    requires requests[i].hashed.Some? && requests[i].stored.None? && requests[i].oldPath.None?
    ensures !Idle(Files(cfg, st, requests, outs), |st.ledger.ops|, requests[i].path)
  {
    var n := |requests| - 1;
    var before := Files(cfg, st, requests[..n], outs[..n]);
    FilesNotHalted(cfg, st, requests, outs);
    FilesGrow(cfg, st, requests[..n], outs[..n]);
    if i < n {
      FilesBusy(cfg, st, requests[..n], outs[..n], i);
    } else {
      NewIsQueued(before, requests[n], outs[n]);
    }
    FileStepBusy(cfg, before, requests[n], outs[n], |st.ledger.ops|, requests[i].path);
  }

  lemma {:induction false} NewIsQueued(st: PushState, r: Request, out: FileOut)
    requires r.hashed.Some? && r.stored.None? && r.oldPath.None?
    ensures Decide(st.remote, st.mem, r, out).Queue?
  {
  }

  lemma {:induction false} LinksExtend(cfg: Config, st: PushState, tasks: seq<LinkTask>, outs: seq<LinkOut>)
    requires |tasks| == |outs|
    ensures st.ledger.ops <= Links(cfg, st, tasks, outs).ledger.ops
  {
    if tasks != [] {
      LinksExtend(cfg, st, tasks[..|tasks| - 1], outs[..|tasks| - 1]);
    }
  }

  lemma {:induction false} DeletionsExtend(st: PushState, paths: seq<string>, outs: seq<DeleteOut>)
    requires |paths| == |outs|
    ensures st.ledger.ops <= Deletions(st, paths, outs).ledger.ops
  {
    if paths != [] {
      DeletionsExtend(st, paths[..|paths| - 1], outs[..|paths| - 1]);
    }
  }

  lemma {:induction false} NewFileIsUploaded(cfg: Config, st: PushState, walk: seq<Entry>, t: Trace, i: nat)
    requires ValidTrace(cfg, st, walk, t) && !After(cfg, st, walk, t).halted && i < |t.requests|
    requires t.requests[i].hashed.Some? && t.requests[i].stored.None? && t.requests[i].oldPath.None?
    ensures !NoUploads(After(cfg, st, walk, t).ledger.ops, |st.ledger.ops|, t.requests[i].path)
  {
    var q := t.requests[i].path;
    var files := Files(cfg, AfterScan(cfg, st, walk), t.requests, t.fileOuts);
    var mid := AfterFiles(cfg, st, walk, t);
    DeletionsCount(AfterCleanup(cfg, st, walk, t), t.deletions, t.deleteOuts);
    LinksCount(cfg, mid, t.links, t.linkOuts);
    FlushCounts(files, t.lastFlush);
    FilesBusy(cfg, AfterScan(cfg, st, walk), t.requests, t.fileOuts, i);
    FilesGrow(cfg, AfterScan(cfg, st, walk), t.requests, t.fileOuts);
    FlushBusy(files, t.lastFlush, |st.ledger.ops|, q);
    LinksExtend(cfg, mid, t.links, t.linkOuts);
    DeletionsExtend(AfterCleanup(cfg, st, walk, t), t.deletions, t.deleteOuts);
    UploadsStay(mid.ledger.ops, After(cfg, st, walk, t).ledger.ops, |st.ledger.ops|, q);
  }

  /** Without its record the file is new to the next scan. */
  lemma {:induction false} TakenIsPrepared(cfg: Config, st: PushState, walk: seq<Entry>, t: Trace, e: nat)
    requires CleanRun(cfg, st, walk, t) && MildOverlap(cfg, st.store, walk)
    requires e < |walk| && walk[e].kind.Regular? && Marks(cfg, walk[e]) && AnsweredAbout(t, RemotePath(cfg, walk[e]))
    requires RecordTaken(cfg, st.remote, st.store, walk, RemotePath(cfg, walk[e]))
    ensures var v := Judge(Next(cfg), After(cfg, st, walk, t).store, walk[e]);
            v.Prepare? && v.request.stored.None? && v.request.oldPath.None? && v.request.hashed == walk[e].kind.hashed
  {
    NothingUnreadable(cfg, st, walk, t, e);
    ScannedRecordIs(cfg, st, walk, t, e);
  }

  lemma {:induction false} TakenIsUploaded(cfg: Config, st: PushState, walk: seq<Entry>, t: Trace, e: nat, next: PushState, u: Trace)
    requires CleanRun(cfg, st, walk, t) && MildOverlap(cfg, st.store, walk)
    requires e < |walk| && walk[e].kind.Regular? && Marks(cfg, walk[e]) && walk[e].kind.hashed.Some? && AnsweredAbout(t, RemotePath(cfg, walk[e]))
    requires next.store == After(cfg, st, walk, t).store && ValidTrace(Next(cfg), next, walk, u) && !After(Next(cfg), next, walk, u).halted
    requires RecordTaken(cfg, st.remote, st.store, walk, RemotePath(cfg, walk[e]))
    ensures !NoUploads(After(Next(cfg), next, walk, u).ledger.ops, |next.ledger.ops|, RemotePath(cfg, walk[e]))
  {
    var q := RemotePath(cfg, walk[e]);
    MarkedIsFound(cfg, walk, e);
    SeenIgnoresMigration(cfg, walk, q);
    TakenIsPrepared(cfg, st, walk, t, e);
    var i := FoundRequest(Next(cfg), next, walk, u, q);
    NewFileIsUploaded(Next(cfg), next, walk, u, i);
  }

  lemma {:induction false} UntakenIsNotUploaded(cfg: Config, st: PushState, walk: seq<Entry>, t: Trace, e: nat, next: PushState, u: Trace)
    requires CleanRun(cfg, st, walk, t) && MildOverlap(cfg, st.store, walk) && Steady(walk)
    requires e < |walk| && Marks(cfg, walk[e]) && AnsweredAbout(t, RemotePath(cfg, walk[e]))
    requires next.store == After(cfg, st, walk, t).store && ValidTrace(Next(cfg), next, walk, u)
    requires !RecordTaken(cfg, st.remote, st.store, walk, RemotePath(cfg, walk[e]))
    ensures NoUploads(After(Next(cfg), next, walk, u).ledger.ops, |next.ledger.ops|, RemotePath(cfg, walk[e]))
  {
    var q := RemotePath(cfg, walk[e]);
    MarkedIsFound(cfg, walk, e);
    SeenIgnoresMigration(cfg, walk, q);
    UntakenIsPassedOver(cfg, st, walk, t, e);
    forall k | 0 <= k < |u.requests| ensures u.requests[k].path != q {
      var f := RequestEntry(Next(cfg), next, walk, u, k);
    }
    FilesIdle(Next(cfg), AfterScan(Next(cfg), next, walk), u.requests, u.fileOuts, |next.ledger.ops|, q);
    RestIdle(Next(cfg), next, walk, u, |next.ledger.ops|, q);
  }

  /**
   Quiescence, file by file: after a push without failures the next Lite push of the same tree,
   if it gets to its end, uploads a readable scanned file if and only if another file took its
   record.
   */
  lemma {:induction false} UploadedAgainIffTaken(cfg: Config, st: PushState, walk: seq<Entry>, t: Trace, e: nat, next: PushState, u: Trace)
    requires CleanRun(cfg, st, walk, t) && MildOverlap(cfg, st.store, walk) && Steady(walk)
    requires e < |walk| && walk[e].kind.Regular? && Marks(cfg, walk[e]) && walk[e].kind.hashed.Some? && AnsweredAbout(t, RemotePath(cfg, walk[e]))
    requires next.store == After(cfg, st, walk, t).store && ValidTrace(Next(cfg), next, walk, u) && !After(Next(cfg), next, walk, u).halted
    ensures !NoUploads(After(Next(cfg), next, walk, u).ledger.ops, |next.ledger.ops|, RemotePath(cfg, walk[e])) <==>
            RecordTaken(cfg, st.remote, st.store, walk, RemotePath(cfg, walk[e]))
  {
    if RecordTaken(cfg, st.remote, st.store, walk, RemotePath(cfg, walk[e])) {
      TakenIsUploaded(cfg, st, walk, t, e, next, u);
    } else {
      UntakenIsNotUploaded(cfg, st, walk, t, e, next, u);
    }
  }

  /**
   Quiescence, as a whole: if nobody took the record of a scanned entry, a Lite push of the
   unchanged tree asks nothing of the server - no upload, no rename, no symlink, no deletion -
   and leaves remote tree and store as they are.
   */
  lemma {:induction false} QuietUnlessTaken(cfg: Config, st: PushState, walk: seq<Entry>, t: Trace, next: PushState, u: Trace)
    requires CleanRun(cfg, st, walk, t) && MildOverlap(cfg, st.store, walk) && Steady(walk)
    requires forall e :: 0 <= e < |walk| && Marks(cfg, walk[e]) ==>
               AnsweredAbout(t, RemotePath(cfg, walk[e])) && !RecordTaken(cfg, st.remote, st.store, walk, RemotePath(cfg, walk[e]))
    requires next.store == After(cfg, st, walk, t).store && ValidTrace(Next(cfg), next, walk, u)
    ensures var after := After(Next(cfg), next, walk, u);
            after.ledger == next.ledger && after.remote == next.remote && after.store == next.store && !after.halted
  {
    forall i | 0 <= i < |walk| ensures var v := Judge(Next(cfg), next.store, walk[i]); v.Ignore? || v.Skip? {
      UntakenIsPassedOver(cfg, st, walk, t, i);
    }
    NothingFoundNothingDone(cfg, st, walk, t, next, u);
  }

  /** Without overlaps nobody asks about the name of another scanned entry. */
  lemma {:induction false} UnaskedIsAnswered(cfg: Config, st: PushState, walk: seq<Entry>, t: Trace, e: nat)
    requires CleanPush(cfg, st, walk, t) && e < |walk| && Marks(cfg, walk[e])
    ensures AnsweredAbout(t, RemotePath(cfg, walk[e]))
  {
    var q := RemotePath(cfg, walk[e]);
    forall k | 0 <= k < |t.requests| && t.requests[k].path != q ensures !Asks(t.requests[k], q) {
      var f := RequestEntry(cfg, st, walk, t, k);
      RequestOfBack(cfg, st.store, walk[f], t.requests[k]);
    }
  }

  /** In particular if no names overlap, whatever queries went unanswered. */
  lemma {:induction false} QuietAfterCleanPush(cfg: Config, st: PushState, walk: seq<Entry>, t: Trace, next: PushState, u: Trace)
    requires CleanPush(cfg, st, walk, t) && Steady(walk)
    requires next.store == After(cfg, st, walk, t).store && ValidTrace(Next(cfg), next, walk, u)
    ensures var after := After(Next(cfg), next, walk, u);
            after.ledger == next.ledger && after.remote == next.remote && after.store == next.store && !after.halted
  {
    ApartIsMild(cfg, st.remote, st.store, walk);
    forall e | 0 <= e < |walk| && Marks(cfg, walk[e])
      ensures AnsweredAbout(t, RemotePath(cfg, walk[e])) && !RecordTaken(cfg, st.remote, st.store, walk, RemotePath(cfg, walk[e]))
    {
      MarkedIsFound(cfg, walk, e);
      UnaskedIsAnswered(cfg, st, walk, t, e);
    }
    QuietUnlessTaken(cfg, st, walk, t, next, u);
  }

  // ---------------------------------------------------------------------------------------
  // Two roots where it happens
  // ---------------------------------------------------------------------------------------

  /** A synced folder moved to its parent, under the same remote base. */
  const TO_PARENT := RootMove("/docs/", "/docs/", ["home", "docs"], ["home"])

  /** Two copies of one file: one in the folder, one now beside it. */
  predicate TwoCopies(walk: seq<Entry>) {
    |walk| == 2 && walk[0].relative == ["docs", "x"] && walk[1].relative == ["x"] &&
    walk[0].kind.Regular? && walk[1].kind.Regular? && walk[0].kind.hashed.Some? && walk[1].kind.hashed == walk[0].kind.hashed
  }

  lemma {:induction false} ParentNames(cfg: Config, walk: seq<Entry>)
    requires cfg.migration == Some(TO_PARENT) && cfg.remoteBase == "/docs/" && cfg.localBase == ["home"] && TwoCopies(walk)
    ensures OldPath(cfg, walk[0]) == Some(RemotePath(cfg, walk[1])) && OldPath(cfg, walk[1]) == None
    ensures RemotePath(cfg, walk[0]) != RemotePath(cfg, walk[1])
  {
    ParentRootOverlaps();
    assert cfg.localBase + walk[0].relative == ["home", "docs", "x"];
    assert cfg.localBase + walk[1].relative == ["home", "x"];
    assert ["home", "x"][..2] == ["home", "x"] && "x" != "docs" && ["home", "docs"][1] == "docs" && ["home", "x"][1] == "x";
    assert ["home", "x"][1..] == ["x"];
    var a, b := walk[0].relative, walk[1].relative;
    if RemotePath(cfg, walk[0]) == RemotePath(cfg, walk[1]) {
      RemotePathInjective(a, b, cfg.remoteBase);
    }
  }

  lemma {:induction false} ParentRootTakes(cfg: Config, remote: Remote, store: View, walk: seq<Entry>)
    requires cfg.migration == Some(TO_PARENT) && cfg.remoteBase == "/docs/" && cfg.localBase == ["home"] && TwoCopies(walk)
    requires Marks(cfg, walk[0]) && Marks(cfg, walk[1]) && !Judge(cfg, store, walk[0]).Unreadable? && Unworked(cfg, store, walk[1])
    requires RemotePath(cfg, walk[0]) !in store && RemotePath(cfg, walk[1]) in store
    requires store[RemotePath(cfg, walk[1])].contentHash == walk[0].kind.hashed.value.hash
    requires Get(remote, RemotePath(cfg, walk[1])) == Some(RFile(walk[0].kind.hashed.value.hash))
    ensures var q := RemotePath(cfg, walk[1]);
            UnderOldBase(cfg, q) && MovedAway(cfg, remote, store, walk, q) && RecordTaken(cfg, remote, store, walk, q) &&
            OneLooksBack(cfg, store, walk, q) && MildOverlap(cfg, store, walk) && NewNamesFree(cfg, store, walk, q)
  {
    var q := RemotePath(cfg, walk[1]);
    ParentNames(cfg, walk);
    OldNameUnderOldBase(cfg, walk[0]);
    assert Takes(Judge(cfg, store, walk[0]).request, q, remote, store);
    MildIsFree(cfg, store, walk, q);
  }

  /**
   The folder is moved to its parent, which holds a copy of one of its files under the name that
   file has on the server. The push ends without an error - and without that name on the server,
   though the file is on disk; the next Lite push uploads it again.
   */
  lemma {:induction false} ParentRootLosesFile(cfg: Config, st: PushState, walk: seq<Entry>, t: Trace, next: PushState, u: Trace)
    requires cfg.migration == Some(TO_PARENT) && cfg.remoteBase == "/docs/" && cfg.localBase == ["home"] && TwoCopies(walk)
    requires CleanRun(cfg, st, walk, t) && Steady(walk) && Marks(cfg, walk[0]) && Marks(cfg, walk[1])
    requires var q := RemotePath(cfg, walk[1]);
             AnsweredAbout(t, q) && RemotePath(cfg, walk[0]) !in st.store && Unworked(cfg, st.store, walk[1]) &&
             q in st.store && st.store[q].contentHash == walk[0].kind.hashed.value.hash &&
             Get(st.remote, q) == Some(RFile(walk[0].kind.hashed.value.hash))
    requires next.store == After(cfg, st, walk, t).store && ValidTrace(Next(cfg), next, walk, u) && !After(Next(cfg), next, walk, u).halted
    ensures var q := RemotePath(cfg, walk[1]);
            Find(cfg, walk, q) == Some(walk[1]) && q !in After(cfg, st, walk, t).remote && q !in After(cfg, st, walk, t).store &&
            !NoUploads(After(Next(cfg), next, walk, u).ledger.ops, |next.ledger.ops|, q)
  {
    var q := RemotePath(cfg, walk[1]);
    NothingUnreadable(cfg, st, walk, t, 0);
    ParentRootTakes(cfg, st.remote, st.store, walk);
    MarkedIsFound(cfg, walk, 1);
    OverlappedFileIsLostIff(cfg, st, walk, t, q);
    UploadedAgainIffTaken(cfg, st, walk, t, 1, next, u);
  }

  // ---------------------------------------------------------------------------------------
  // Every order has its push without failures
  // ---------------------------------------------------------------------------------------

  const LANDED := BatchLanded(Chunked(true), true)

  /** Everything goes well. */
  const WELL := FileOut(true, Moved, true, Adopted, LANDED, LANDED, LANDED)

  lemma {:induction false} LandDeclared(st: PushState, files: seq<PendingPushFile>)
    requires st.ledger.overtaken == {}
    ensures LandAll(st, files, Declared(files)).ledger.overtaken == {}
  {
    if files != [] {
      var n := |files| - 1;
      assert Declared(files)[..n] == Declared(files[..n]);
      LandDeclared(st, files[..n]);
    }
  }

  lemma {:induction false} FlushWell(st: PushState)
    requires Clean(st)
    ensures Clean(Flush(st, LANDED))
  {
    if st.batch != [] {
      var handed := Issue(st.(batch := []), Upload(st.batch));
      LandAllShape(handed, st.batch, Declared(st.batch));
      LandDeclared(handed, st.batch);
      assert st.batch[..|st.batch|] == st.batch;
    }
  }

  lemma {:induction false} EnqueueWell(cfg: Config, st: PushState, file: PendingPushFile)
    requires Clean(st)
    ensures Clean(Enqueue(cfg, st, file, WELL))
  {
    FlushWell(st);
    var ready := if FlushBefore(st.batch, file, cfg.blob) then Flush(st, LANDED) else st;
    FlushWell(ready.(batch := ready.batch + [file]));
  }

  lemma {:induction false} HandleWell(cfg: Config, st: PushState, r: Request)
    requires Clean(st) && r.hashed.Some?
    ensures Clean(Handle(cfg, st, r, WELL))
  {
    match Decide(st.remote, st.mem, r, WELL)
    case HashSkip =>
    case Migrate =>
    case Adopt =>
    case Queue => EnqueueWell(cfg, st, Candidate(r));
  }

  lemma {:induction false} FileStepWell(cfg: Config, st: PushState, r: Request)
    requires Clean(st) && r.hashed.Some?
    ensures Clean(FileStep(cfg, st, r, WELL))
  {
    HandleWell(cfg, st, r);
    var handled := Handle(cfg, st, r, WELL);
    FlushWell(handled.(tally := Completed(handled.tally)));
  }

  ghost predicate AllRead(requests: seq<Request>) {
    forall i :: 0 <= i < |requests| ==> requests[i].hashed.Some?
  }

  lemma {:induction false} FilesWell(cfg: Config, st: PushState, requests: seq<Request>)
    requires Clean(st) && AllRead(requests)
    ensures Clean(Files(cfg, st, requests, seq(|requests|, i => WELL)))
  {
    if requests != [] {
      var n := |requests| - 1;
      assert seq(|requests|, i => WELL)[..n] == seq(n, i => WELL);
      FilesWell(cfg, st, requests[..n]);
      FileStepWell(cfg, Files(cfg, st, requests[..n], seq(n, i => WELL)), requests[n]);
    }
  }

  lemma {:induction false} LinksWell(cfg: Config, st: PushState, tasks: seq<LinkTask>)
    requires Clean(st)
    ensures Clean(Links(cfg, st, tasks, seq(|tasks|, i => LinkOut(true, true))))
  {
    if tasks != [] {
      var n := |tasks| - 1;
      assert seq(|tasks|, i => LinkOut(true, true))[..n] == seq(n, i => LinkOut(true, true));
      LinksWell(cfg, st, tasks[..n]);
    }
  }

  lemma {:induction false} DeletionsWell(st: PushState, paths: seq<string>)
    requires Clean(st)
    ensures Clean(Deletions(st, paths, seq(|paths|, i => Deleted)))
  {
    if paths != [] {
      var n := |paths| - 1;
      assert seq(|paths|, i => Deleted)[..n] == seq(n, i => Deleted);
      DeletionsWell(st, paths[..n]);
    }
  }

  lemma {:induction false} Listed<T>(s: set<T>) returns (list: seq<T>)
    ensures Elements(list) == s && Distinct(list)
    decreases |s|
  {
    if s == {} {
      list := [];
    } else {
      var x :| x in s;
      var rest := Listed(s - {x});
      list := rest + [x];
      assert Elements(list) == Elements(rest) + {x};
    }
  }

  lemma {:induction false} ScanWell(cfg: Config, mem: View, walk: seq<Entry>)
    requires forall i :: 0 <= i < |walk| ==> !Judge(cfg, mem, walk[i]).Unreadable?
    ensures ScanAll(cfg, mem, walk).tally.errors == 0
  {
    if walk != [] {
      ScanWell(cfg, mem, walk[..|walk| - 1]);
    }
  }

  /** Whatever can be read can be pushed without a failure, in every order. */
  lemma {:induction false} EveryOrderGoesWell(cfg: Config, st: PushState, walk: seq<Entry>, order: seq<Request>) returns (t: Trace)
    requires ProperWalk(walk) && KeysArePaths(st.store) && st.ledger.overtaken == {}
    requires forall i :: 0 <= i < |walk| ==> !Judge(cfg, st.store, walk[i]).Unreadable?
    requires multiset(order) == multiset(ScanAll(cfg, st.store, walk).requests) && AllRead(order)
    ensures CleanRun(cfg, st, walk, t) && t.requests == order && forall q :: AnsweredAbout(t, q)
    ensures forall i :: 0 <= i < |order| ==> t.fileOuts[i] == WELL
  {
    var scan := ScanAll(cfg, st.store, walk);
    var outs := seq(|order|, i => WELL);
    var linkOuts := seq(|scan.links|, i => LinkOut(true, true));
    t := Trace(order, outs, LANDED, true, scan.links, linkOuts, true, true, {}, [], []);
    var files := Files(cfg, AfterScan(cfg, st, walk), order, outs);
    ScanWell(cfg, st.store, walk);
    FilesWell(cfg, AfterScan(cfg, st, walk), order);
    FlushWell(files);
    LinksWell(cfg, AfterFiles(cfg, st, walk, t), scan.links);
    var cleaned := AfterCleanup(cfg, st, walk, t);
    var deletions := Listed(DeletionCandidates(cfg, cleaned.mem, scan.seen));
    t := t.(deletions := deletions, deleteOuts := seq(|deletions|, i => Deleted));
    DeletionsWell(cleaned, deletions);
  }

  // ---------------------------------------------------------------------------------------
  // Two files with one old name
  // ---------------------------------------------------------------------------------------

  /** A synced folder moved two levels up. */
  const UP_TWO := RootMove("/o/", "/n/", ["a", "b", "c"], ["a"])

  /** One file in the old folder, one in a folder of its name in the new root; their contents differ. */
  predicate TwoCandidates(walk: seq<Entry>) {
    |walk| == 2 && walk[0].relative == ["c", "x"] && walk[1].relative == ["b", "c", "x"] &&
    walk[0].kind.Regular? && walk[1].kind.Regular? && walk[0].kind.mtime.Some? && walk[1].kind.mtime.Some? &&
    walk[0].kind.hashed.Some? && walk[1].kind.hashed.Some? &&
    walk[0].kind.hashed.value.hash != walk[1].kind.hashed.value.hash
  }

  predicate UpTwo(cfg: Config) {
    cfg.migration == Some(UP_TWO) && cfg.remoteBase == "/n/" && cfg.localBase == ["a"] && cfg.matchesFilter("x")
  }

  lemma {:induction false} UpTwoNames(cfg: Config, walk: seq<Entry>)
    requires UpTwo(cfg) && TwoCandidates(walk)
    ensures OldPath(cfg, walk[0]) == OldPath(cfg, walk[1]) == Some(ComputeRemotePath(["x"], "/o/"))
    ensures RemotePath(cfg, walk[0]) != RemotePath(cfg, walk[1])
    ensures ComputeRemotePath(["x"], "/o/")[1] == 'o' && RemotePath(cfg, walk[0])[1] == 'n' && RemotePath(cfg, walk[1])[1] == 'n'
  {
    var a, b := walk[0].relative, walk[1].relative;
    TwoLevelsUpShareName();
    assert cfg.localBase + a == ["a", "c", "x"] && cfg.localBase + b == ["a", "b", "c", "x"];
    if RemotePath(cfg, walk[0]) == RemotePath(cfg, walk[1]) {
      RemotePathInjective(a, b, cfg.remoteBase);
    }
  }

  /** The server holds the old file and, at the first new name, what is now the first file; the store knows the old file. */
  ghost predicate TwoLeft(cfg: Config, st: PushState, walk: seq<Entry>, q: string)
    requires TwoCandidates(walk)
  {
    q in st.store && st.store.Keys == {q} && st.store[q].path == q && st.store[q].contentHash == walk[1].kind.hashed.value.hash &&
    Get(st.remote, q) == Some(RFile(walk[1].kind.hashed.value.hash)) &&
    Get(st.remote, RemotePath(cfg, walk[0])) == Some(RFile(walk[0].kind.hashed.value.hash)) && st.ledger.overtaken == {}
  }

  /** Both files are prepared; the first would adopt, the second would move. */
  lemma {:induction false} BothPrepared(cfg: Config, st: PushState, walk: seq<Entry>, q: string) returns (a: Request, b: Request)
    requires UpTwo(cfg) && TwoCandidates(walk) && q == ComputeRemotePath(["x"], "/o/") && TwoLeft(cfg, st, walk, q)
    ensures Judge(cfg, st.store, walk[0]) == Prepare(a) && Judge(cfg, st.store, walk[1]) == Prepare(b)
    ensures ScanAll(cfg, st.store, walk).requests == [a, b] && a.hashed.Some? && b.hashed.Some?
    ensures Takes(a, q, st.remote, st.store) && !Moves(a, q, st.remote, st.store)
    ensures Takes(b, q, st.remote, st.store) && Moves(b, q, st.remote, st.store)
  {
    UpTwoNames(cfg, walk);
    a, b := Judge(cfg, st.store, walk[0]).request, Judge(cfg, st.store, walk[1]).request;
    assert walk[..1][..0] == [] && walk[..1] == [walk[0]];
    assert ScanAll(cfg, st.store, walk[..1]) == ScanStep(cfg, st.store, NO_SCAN, walk[0]);
  }

  lemma {:induction false} NobodyLooksBackToNew(cfg: Config, store: View, walk: seq<Entry>, q: string)
    requires UpTwo(cfg) && TwoCandidates(walk) && q == ComputeRemotePath(["x"], "/o/")
    ensures NewNamesFree(cfg, store, walk, q) && Find(cfg, walk, q).None? && UnderOldBase(cfg, q) && ProperWalk(walk)
  {
    UpTwoNames(cfg, walk);
    OldNameUnderOldBase(cfg, walk[0]);
    assert walk[..1] == [walk[0]] && walk[..1][..0] == [];
    assert Find(cfg, walk[..1], q).None?;
  }

  lemma {:induction false} FirstTaker(a: Request, b: Request, q: string, remote: Remote, store: View)
    requires Takes(a, q, remote, store)
    ensures Taker([a, b], q, remote, store) == Some(a)
  {
    assert [a, b][..1] == [a] && [a][..0] == [];
    assert Taker([a], q, remote, store) == Some(a);
  }

  /** Whoever gets ready first decides. */
  lemma {:induction false} OneOrder(cfg: Config, st: PushState, walk: seq<Entry>, q: string, a: Request, b: Request) returns (t: Trace)
    requires ProperWalk(walk) && KeysArePaths(st.store) && st.ledger.overtaken == {} && q in st.remote
    requires NewNamesFree(cfg, st.store, walk, q) && Find(cfg, walk, q).None? && UnderOldBase(cfg, q)
    requires ScanAll(cfg, st.store, walk).requests == [a, b] || ScanAll(cfg, st.store, walk).requests == [b, a]
    requires a.hashed.Some? && b.hashed.Some? && forall i :: 0 <= i < |walk| ==> !Judge(cfg, st.store, walk[i]).Unreadable?
    requires Takes(a, q, st.remote, st.store)
    ensures CleanRun(cfg, st, walk, t) && AnsweredAbout(t, q)
    ensures q in After(cfg, st, walk, t).remote <==> !Moves(a, q, st.remote, st.store)
  {
    t := EveryOrderGoesWell(cfg, st, walk, [a, b]);
    FirstTaker(a, b, q, st.remote, st.store);
    OldNameFate(cfg, st, walk, t, q);
  }

  /**
   Two files share an old name: one is already at its new name, the other would be moved. If the
   first gets ready first it takes the record, and the old file stays on the server; otherwise
   the second takes the old file away. Both pushes end without a failure.
   */
  lemma {:induction false} SharedOldNameOrderDecides(cfg: Config, st: PushState, walk: seq<Entry>, q: string) returns (t: Trace, u: Trace)
    requires UpTwo(cfg) && TwoCandidates(walk) && q == ComputeRemotePath(["x"], "/o/") && TwoLeft(cfg, st, walk, q)
    ensures CleanRun(cfg, st, walk, t) && AnsweredAbout(t, q) && q in After(cfg, st, walk, t).remote
    ensures CleanRun(cfg, st, walk, u) && AnsweredAbout(u, q) && q !in After(cfg, st, walk, u).remote
  {
    NobodyLooksBackToNew(cfg, st.store, walk, q);
    var a, b := BothPrepared(cfg, st, walk, q);
    t := OneOrder(cfg, st, walk, q, a, b);
    u := OneOrder(cfg, st, walk, q, b, a);
  }
}
