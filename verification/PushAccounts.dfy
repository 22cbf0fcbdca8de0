/** The books of a push: every entry is counted once, and no batch exceeds the limits. */
module PushAccounts {
  import opened Prelude
  import opened Chunks
  import opened Planning
  import opened Batching
  import opened MetadataStore
  import opened Push
  import opened PushFacts

  // ---------------------------------------------------------------------------------------
  // Counting
  // ---------------------------------------------------------------------------------------

  /** Entries that are neither files nor symlinks of this relationship. */
  function IgnoredCount(walk: seq<Entry>): nat {
    if walk == [] then 0
    else
      var kind := walk[|walk| - 1].kind;
      IgnoredCount(walk[..|walk| - 1]) + if kind.Stray? || kind.Special? then 1 else 0
  }

  lemma {:induction false} ScanStepCounts(cfg: Config, mem: View, s: Scan, e: Entry)
    ensures var after := ScanStep(cfg, mem, s, e);
            after.tally.processed + |after.requests| + |after.links| == s.tally.processed + |s.requests| + |s.links| + 1 &&
            Settled(after.tally) - after.tally.processed + (if e.kind.Stray? || e.kind.Special? then 1 else 0) ==
            Settled(s.tally) - s.tally.processed &&
            after.tally.errors - after.tally.failed == s.tally.errors - s.tally.failed && after.tally.deleted == s.tally.deleted
  {
  }

  lemma {:induction false} ScanCounts(cfg: Config, mem: View, walk: seq<Entry>)
    ensures var s := ScanAll(cfg, mem, walk);
            s.tally.processed + |s.requests| + |s.links| == |walk| &&
            Settled(s.tally) + IgnoredCount(walk) == s.tally.processed &&
            s.tally.errors == s.tally.failed && s.tally.deleted == 0
  {
    if walk != [] {
      ScanCounts(cfg, mem, walk[..|walk| - 1]);
      ScanStepCounts(cfg, mem, ScanAll(cfg, mem, walk[..|walk| - 1]), walk[|walk| - 1]);
    }
  }

  /** One step neither loses nor repeats an entry. */
  ghost predicate Balanced(before: PushState, after: PushState, entries: nat) {
    Settled(after.tally) + |after.batch| == Settled(before.tally) + |before.batch| + entries &&
    after.tally.deleted == before.tally.deleted &&
    after.tally.errors - after.tally.failed == before.tally.errors - before.tally.failed
  }

  lemma {:induction false} BalancedThrough(a: PushState, b: PushState, c: PushState, m: nat, n: nat)
    requires Balanced(a, b, m) && Balanced(b, c, n)
    ensures Balanced(a, c, m + n)
  {
  }

  /** A batch handed over without ending the push is settled, file by file. */
  lemma {:induction false} HandOverCounts(st: PushState, files: seq<PendingPushFile>, out: FlushOut)
    requires !HandOver(st, files, out).halted
    ensures var after := HandOver(st, files, out);
            !st.halted && after.tally.processed == st.tally.processed && after.tally.deleted == st.tally.deleted &&
            after.tally.errors - after.tally.failed == st.tally.errors - st.tally.failed &&
            Settled(after.tally) == Settled(st.tally) + |files|
  {
    ArriveShape(st, files, out.delivery);
    if out.Isolated? && |out.fates| == |files| {
      IsolateShape(Arrive(st, files, out.delivery), files, out.fates);
    }
  }

  lemma {:induction false} FlushCounts(st: PushState, out: FlushOut)
    requires !Flush(st, out).halted
    ensures !st.halted && Balanced(st, Flush(st, out), 0)
    ensures Flush(st, out).batch == [] && Flush(st, out).tally.processed == st.tally.processed
  {
    FlushOps(st, out);
    if st.batch != [] {
      HandOverCounts(Issue(st.(batch := []), Upload(st.batch)), st.batch, out);
    }
  }

  lemma {:induction false} EnqueueCounts(cfg: Config, st: PushState, file: PendingPushFile, out: FileOut)
    requires !Enqueue(cfg, st, file, out).halted
    ensures !st.halted && Balanced(st, Enqueue(cfg, st, file, out), 1)
    ensures Enqueue(cfg, st, file, out).tally.processed == st.tally.processed
  {
    var ready := if FlushBefore(st.batch, file, cfg.blob) then Flush(st, out.before) else st;
    if FlushBefore(st.batch, file, cfg.blob) && !ready.halted {
      FlushCounts(st, out.before);
    }
    var queued := ready.(batch := ready.batch + [file]);
    if FlushNow(queued.batch, cfg.blob) && !Flush(queued, out.now).halted {
      FlushCounts(queued, out.now);
    }
  }

  lemma {:induction false} HandleCounts(cfg: Config, st: PushState, r: Request, out: FileOut)
    requires r.hashed.Some? && !Handle(cfg, st, r, out).halted
    ensures !st.halted && Balanced(st, Handle(cfg, st, r, out), 1)
    ensures Handle(cfg, st, r, out).tally.processed == st.tally.processed
  {
    if Decide(st.remote, st.mem, r, out).Queue? {
      EnqueueCounts(cfg, st, Candidate(r), out);
    }
  }

  lemma {:induction false} CompleteCounts(st: PushState, out: FlushOut)
    requires !Complete(st, out).halted
    ensures !st.halted && Balanced(st, Complete(st, out), 0)
    ensures Complete(st, out).tally.processed == st.tally.processed + 1
  {
    var completed := st.(tally := Completed(st.tally));
    if completed.tally.processed % 100 == 0 {
      FlushCounts(completed, out);
    }
  }

  lemma {:induction false} FileStepCounts(cfg: Config, st: PushState, r: Request, out: FileOut)
    requires !FileStep(cfg, st, r, out).halted
    ensures !st.halted && Balanced(st, FileStep(cfg, st, r, out), 1)
    ensures FileStep(cfg, st, r, out).tally.processed == st.tally.processed + 1
  {
    if r.hashed.None? {
      CompleteCounts(st.(tally := Failed(st.tally)), out.progress);
    } else {
      CompleteCounts(Handle(cfg, st, r, out), out.progress);
      HandleCounts(cfg, st, r, out);
    }
  }

  lemma {:induction false} FilesCount(cfg: Config, st: PushState, requests: seq<Request>, outs: seq<FileOut>)
    requires |requests| == |outs| && !Files(cfg, st, requests, outs).halted
    ensures !st.halted && Balanced(st, Files(cfg, st, requests, outs), |requests|)
    ensures Files(cfg, st, requests, outs).tally.processed == st.tally.processed + |requests|
  {
    if requests != [] {
      var n := |requests| - 1;
      var before := Files(cfg, st, requests[..n], outs[..n]);
      FilesNotHalted(cfg, st, requests, outs);
      FilesCount(cfg, st, requests[..n], outs[..n]);
      LastFileCounts(cfg, st, before, requests[n], outs[n], n);
    }
  }

  lemma {:induction false} FilesNotHalted(cfg: Config, st: PushState, requests: seq<Request>, outs: seq<FileOut>)
    requires |requests| == |outs| > 0 && !Files(cfg, st, requests, outs).halted
    ensures var n := |requests| - 1; !Files(cfg, st, requests[..n], outs[..n]).halted
  {
  }

  /** One more file after n of them. */
  lemma {:induction false} LastFileCounts(cfg: Config, st: PushState, before: PushState, r: Request, out: FileOut, n: nat)
    requires !FileStep(cfg, before, r, out).halted && Balanced(st, before, n) && before.tally.processed == st.tally.processed + n
    ensures Balanced(st, FileStep(cfg, before, r, out), n + 1)
    ensures FileStep(cfg, before, r, out).tally.processed == st.tally.processed + n + 1
  {
    FileStepCounts(cfg, before, r, out);
    BalancedThrough(st, before, FileStep(cfg, before, r, out), n, 1);
  }

  lemma {:induction false} LinkStepCounts(cfg: Config, st: PushState, task: LinkTask, out: LinkOut)
    requires !LinkStep(cfg, st, task, out).halted
    ensures !st.halted && Balanced(st, LinkStep(cfg, st, task, out), 1)
    ensures LinkStep(cfg, st, task, out).tally.processed == st.tally.processed + 1
    ensures LinkStep(cfg, st, task, out).batch == st.batch
  {
  }

  lemma {:induction false} LinksCount(cfg: Config, st: PushState, tasks: seq<LinkTask>, outs: seq<LinkOut>)
    requires |tasks| == |outs| && !Links(cfg, st, tasks, outs).halted
    ensures !st.halted && Balanced(st, Links(cfg, st, tasks, outs), |tasks|)
    ensures Links(cfg, st, tasks, outs).tally.processed == st.tally.processed + |tasks|
    ensures Links(cfg, st, tasks, outs).batch == st.batch
  {
    if tasks != [] {
      var n := |tasks| - 1;
      LinkStepCounts(cfg, Links(cfg, st, tasks[..n], outs[..n]), tasks[n], outs[n]);
      LinksCount(cfg, st, tasks[..n], outs[..n]);
    }
  }

  function Refused(outs: seq<DeleteOut>): nat {
    if outs == [] then 0
    else Refused(outs[..|outs| - 1]) + if outs[|outs| - 1].DeleteRefused? then 1 else 0
  }

  lemma {:induction false} DeletionsCount(st: PushState, paths: seq<string>, outs: seq<DeleteOut>)
    requires |paths| == |outs| && !Deletions(st, paths, outs).halted
    ensures !st.halted
    ensures var after := Deletions(st, paths, outs).tally;
            after == st.tally.(deleted := after.deleted, failed := after.failed, errors := after.errors) &&
            after.failed == st.tally.failed + Refused(outs) && after.errors == st.tally.errors + Refused(outs) &&
            after.deleted - st.tally.deleted + Refused(outs) == |paths|
  {
    if paths != [] {
      DeletionsCount(st, paths[..|paths| - 1], outs[..|paths| - 1]);
    }
  }

  lemma {:induction false} DistinctSize<T>(s: seq<T>)
    requires Distinct(s)
    ensures |Elements(s)| == |s|
  {
    if s != [] {
      var n := |s| - 1;
      DistinctSize(s[..n]);
      assert s == s[..n] + [s[n]];
      assert Elements(s) == Elements(s[..n]) + {s[n]};
    } else {
      assert Elements(s) == {};
    }
  }

  lemma {:induction false} AfterLinksCounts(cfg: Config, st: PushState, walk: seq<Entry>, t: Trace)
    requires ValidTrace(cfg, st, walk, t) && !AfterLinks(cfg, st, walk, t).halted
    ensures var after := AfterLinks(cfg, st, walk, t).tally;
            after.processed == |walk| && Settled(after) + IgnoredCount(walk) == |walk| &&
            after.errors == after.failed && after.deleted == 0
  {
    var start := AfterScan(cfg, st, walk);
    ScanCounts(cfg, st.store, walk);
    SameSize(t.requests, ScanAll(cfg, st.store, walk).requests);
    SameSize(t.links, ScanAll(cfg, st.store, walk).links);
    var files := Files(cfg, start, t.requests, t.fileOuts);
    var flushed := Flush(files, t.lastFlush);
    var mid := AfterFiles(cfg, st, walk, t);
    LinksCount(cfg, mid, t.links, t.linkOuts);
    FlushCounts(files, t.lastFlush);
    FilesCount(cfg, start, t.requests, t.fileOuts);
  }

  lemma {:induction false} SameSize<T>(a: seq<T>, b: seq<T>)
    requires multiset(a) == multiset(b)
    ensures |a| == |b|
  {
    assert |multiset(a)| == |a| && |multiset(b)| == |b|;
  }

  /**
   On Ok every walked entry was processed and counted exactly once, as pushed, skipped, failed
   or ignored; every deletion candidate was deleted or failed; and there is one error for every
   failure.
   */
  lemma {:induction false} EveryEntryCountedOnce(cfg: Config, st: PushState, walk: seq<Entry>, t: Trace)
    requires ValidTrace(cfg, st, walk, t) && !After(cfg, st, walk, t).halted
    ensures var tally := After(cfg, st, walk, t).tally;
            var scanFailed := AfterCleanup(cfg, st, walk, t).tally.failed;
            var candidates := DeletionCandidates(cfg, AfterCleanup(cfg, st, walk, t).mem, ScanAll(cfg, st.store, walk).seen);
            tally.processed == |walk| &&
            tally.pushed + tally.skipped + scanFailed + IgnoredCount(walk) == |walk| &&
            tally.deleted + (tally.failed - scanFailed) == |candidates| &&
            tally.errors == tally.failed
  {
    DeletionsCount(AfterCleanup(cfg, st, walk, t), t.deletions, t.deleteOuts);
    AfterLinksCounts(cfg, st, walk, t);
    DistinctSize(t.deletions);
  }

  // ---------------------------------------------------------------------------------------
  // What the counters stand for
  // ---------------------------------------------------------------------------------------

  /** Entries that the scan could not examine. */
  function UnexaminedCount(cfg: Config, walk: seq<Entry>): nat {
    if walk == [] then 0
    else
      var e := walk[|walk| - 1];
      UnexaminedCount(cfg, walk[..|walk| - 1]) +
      if e.kind.NoMetadata? || (e.kind.Link? && e.kind.target.None?) ||
         (e.kind.Regular? && e.kind.mtime.None? && cfg.matchesFilter(FileName(e.relative))) then 1 else 0
  }

  /** What was asked of the server to bring files and symlinks there. */
  function AskedFor(ops: seq<Op>): nat {
    if ops == [] then 0
    else
      AskedFor(ops[..|ops| - 1]) +
      match ops[|ops| - 1]
      case Upload(files) => |files|
      case Rename(_, _) => 1
      case PutLink(_) => 1
      case Delete(_) => 0
  }

  function DeletesAskedFor(ops: seq<Op>): nat {
    if ops == [] then 0 else DeletesAskedFor(ops[..|ops| - 1]) + if ops[|ops| - 1].Delete? then 1 else 0
  }

  /** Files that could not be read when their turn came. */
  function UnreadCount(requests: seq<Request>): nat {
    if requests == [] then 0 else UnreadCount(requests[..|requests| - 1]) + if requests[|requests| - 1].hashed.None? then 1 else 0
  }

  lemma {:induction false} ScanTally(cfg: Config, mem: View, walk: seq<Entry>)
    ensures var tally := ScanAll(cfg, mem, walk).tally;
            tally.failed == tally.errors == UnexaminedCount(cfg, walk) && tally.pushed == 0 && tally.deleted == 0 && tally.bytes == 0
  {
    if walk != [] {
      ScanTally(cfg, mem, walk[..|walk| - 1]);
    }
  }

  /** Between two states every file asked for was pushed or failed, and nothing else was, but for `unread` files. */
  ghost predicate Accounted(before: PushState, after: PushState, unread: nat) {
    after.tally.pushed + after.tally.failed - AskedFor(after.ledger.ops) ==
    before.tally.pushed + before.tally.failed - AskedFor(before.ledger.ops) + unread &&
    DeletesAskedFor(after.ledger.ops) == DeletesAskedFor(before.ledger.ops)
  }

  lemma {:induction false} AccountedThrough(a: PushState, b: PushState, c: PushState, m: nat, n: nat)
    requires Accounted(a, b, m) && Accounted(b, c, n)
    ensures Accounted(a, c, m + n)
  {
  }

  lemma {:induction false} OneMoreAsked(ops: seq<Op>, op: Op)
    ensures AskedFor(ops + [op]) == AskedFor(ops) + (if op.Upload? then |op.files| else if op.Delete? then 0 else 1)
    ensures DeletesAskedFor(ops + [op]) == DeletesAskedFor(ops) + (if op.Delete? then 1 else 0)
  {
    assert (ops + [op])[..|ops|] == ops;
  }

  lemma {:induction false} IsolateKeepsSkipped(st: PushState, files: seq<PendingPushFile>, fates: seq<Fate>)
    requires |files| == |fates|
    ensures Isolate(st, files, fates).tally.skipped == st.tally.skipped
  {
    if files != [] {
      var n := |files| - 1;
      IsolateKeepsSkipped(st, files[..n], fates[..n]);
      ArriveShape(Isolate(st, files[..n], fates[..n]), [files[n]], fates[n].delivery);
    }
  }

  lemma {:induction false} FlushAccounts(st: PushState, out: FlushOut)
    requires !Flush(st, out).halted
    ensures Accounted(st, Flush(st, out), 0)
  {
    if st.batch != [] {
      var handed := Issue(st.(batch := []), Upload(st.batch));
      FlushOps(st, out);
      OneMoreAsked(st.ledger.ops, Upload(st.batch));
      HandOverCounts(handed, st.batch, out);
      HandOverKeepsSkipped(handed, st.batch, out);
    }
  }

  lemma {:induction false} HandOverKeepsSkipped(st: PushState, files: seq<PendingPushFile>, out: FlushOut)
    ensures HandOver(st, files, out).tally.skipped == st.tally.skipped
  {
    ArriveShape(st, files, out.delivery);
    if out.Isolated? && |out.fates| == |files| {
      IsolateKeepsSkipped(Arrive(st, files, out.delivery), files, out.fates);
    }
  }

  lemma {:induction false} EnqueueAccounts(cfg: Config, st: PushState, file: PendingPushFile, out: FileOut)
    requires !Enqueue(cfg, st, file, out).halted
    ensures Accounted(st, Enqueue(cfg, st, file, out), 0)
  {
    var ready := if FlushBefore(st.batch, file, cfg.blob) then Flush(st, out.before) else st;
    if FlushBefore(st.batch, file, cfg.blob) && !ready.halted {
      FlushAccounts(st, out.before);
    }
    var queued := ready.(batch := ready.batch + [file]);
    if FlushNow(queued.batch, cfg.blob) && !Flush(queued, out.now).halted {
      FlushAccounts(queued, out.now);
    }
  }

  lemma {:induction false} HandleAccounts(cfg: Config, st: PushState, r: Request, out: FileOut)
    requires r.hashed.Some? && !Handle(cfg, st, r, out).halted
    ensures Accounted(st, Handle(cfg, st, r, out), 0)
  {
    match Decide(st.remote, st.mem, r, out)
    case Queue => EnqueueAccounts(cfg, st, Candidate(r), out);
    case Migrate => OneMoreAsked(st.ledger.ops, Rename(r.oldPath.value, r.path));
    case _ =>
  }

  lemma {:induction false} CompleteAccounts(st: PushState, out: FlushOut)
    requires !Complete(st, out).halted
    ensures Accounted(st, Complete(st, out), 0)
  {
    var completed := st.(tally := Completed(st.tally));
    if completed.tally.processed % 100 == 0 {
      FlushAccounts(completed, out);
    }
  }

  lemma {:induction false} FileStepAccounts(cfg: Config, st: PushState, r: Request, out: FileOut)
    requires !FileStep(cfg, st, r, out).halted
    ensures !st.halted && Accounted(st, FileStep(cfg, st, r, out), if r.hashed.None? then 1 else 0)
  {
    if r.hashed.None? {
      CompleteAccounts(st.(tally := Failed(st.tally)), out.progress);
    } else {
      CompleteCounts(Handle(cfg, st, r, out), out.progress);
      CompleteAccounts(Handle(cfg, st, r, out), out.progress);
      HandleAccounts(cfg, st, r, out);
    }
  }

  lemma {:induction false} FilesAccount(cfg: Config, st: PushState, requests: seq<Request>, outs: seq<FileOut>)
    requires |requests| == |outs| && !Files(cfg, st, requests, outs).halted
    ensures Accounted(st, Files(cfg, st, requests, outs), UnreadCount(requests))
  {
    if requests != [] {
      var n := |requests| - 1;
      var before := Files(cfg, st, requests[..n], outs[..n]);
      FileStepAccounts(cfg, before, requests[n], outs[n]);
      FilesAccount(cfg, st, requests[..n], outs[..n]);
      AccountedThrough(st, before, Files(cfg, st, requests, outs), UnreadCount(requests[..n]), if requests[n].hashed.None? then 1 else 0);
    }
  }

  lemma {:induction false} LinkStepAccounts(cfg: Config, st: PushState, task: LinkTask, out: LinkOut)
    requires !LinkStep(cfg, st, task, out).halted
    ensures Accounted(st, LinkStep(cfg, st, task, out), 0)
  {
    OneMoreAsked(st.ledger.ops, PutLink(task.path));
  }

  lemma {:induction false} LinksAccount(cfg: Config, st: PushState, tasks: seq<LinkTask>, outs: seq<LinkOut>)
    requires |tasks| == |outs| && !Links(cfg, st, tasks, outs).halted
    ensures Accounted(st, Links(cfg, st, tasks, outs), 0)
  {
    if tasks != [] {
      var n := |tasks| - 1;
      var before := Links(cfg, st, tasks[..n], outs[..n]);
      LinkStepCounts(cfg, before, tasks[n], outs[n]);
      LinkStepAccounts(cfg, before, tasks[n], outs[n]);
      LinksAccount(cfg, st, tasks[..n], outs[..n]);
    }
  }

  lemma {:induction false} DeletionsAccount(st: PushState, paths: seq<string>, outs: seq<DeleteOut>)
    requires |paths| == |outs| && !Deletions(st, paths, outs).halted
    ensures AskedFor(Deletions(st, paths, outs).ledger.ops) == AskedFor(st.ledger.ops)
    ensures DeletesAskedFor(Deletions(st, paths, outs).ledger.ops) == DeletesAskedFor(st.ledger.ops) + |paths|
  {
    if paths != [] {
      var n := |paths| - 1;
      var before := Deletions(st, paths[..n], outs[..n]);
      DeletionsCount(st, paths, outs);
      DeletionsAccount(st, paths[..n], outs[..n]);
      OneMoreAsked(before.ledger.ops, Delete(paths[n]));
    }
  }

  lemma {:induction false} AfterLinksAccounts(cfg: Config, st: PushState, walk: seq<Entry>, t: Trace)
    requires ValidTrace(cfg, st, walk, t) && !AfterLinks(cfg, st, walk, t).halted
    ensures Accounted(AfterScan(cfg, st, walk), AfterLinks(cfg, st, walk, t), UnreadCount(t.requests))
  {
    var start := AfterScan(cfg, st, walk);
    var files := Files(cfg, start, t.requests, t.fileOuts);
    var mid := AfterFiles(cfg, st, walk, t);
    LinksCount(cfg, mid, t.links, t.linkOuts);
    FlushCounts(files, t.lastFlush);
    FilesAccount(cfg, start, t.requests, t.fileOuts);
    FlushAccounts(files, t.lastFlush);
    LinksAccount(cfg, mid, t.links, t.linkOuts);
  }

  /**
   On Ok the counters say what was asked of the server: every file handed over, every rename and
   every symlink asked for was pushed or failed; what failed besides is exactly the entries that
   could not be examined and the files that could not be read; every deletion asked for was
   carried out or failed. The rest was skipped (`EveryEntryCountedOnce`).
   */
  lemma {:induction false} CountersAccountForOps(cfg: Config, st: PushState, walk: seq<Entry>, t: Trace)
    requires ValidTrace(cfg, st, walk, t) && !After(cfg, st, walk, t).halted
    ensures var after := After(cfg, st, walk, t);
            var deletes := DeletesAskedFor(after.ledger.ops) - DeletesAskedFor(st.ledger.ops);
            after.tally.pushed + after.tally.failed + after.tally.deleted ==
            AskedFor(after.ledger.ops) - AskedFor(st.ledger.ops) + deletes + UnexaminedCount(cfg, walk) + UnreadCount(t.requests) &&
            deletes == |t.deletions| >= after.tally.deleted
  {
    DeletionsCount(AfterCleanup(cfg, st, walk, t), t.deletions, t.deleteOuts);
    DeletionsAccount(AfterCleanup(cfg, st, walk, t), t.deletions, t.deleteOuts);
    BeforeDeletions(cfg, st, walk, t);
  }

  lemma {:induction false} BeforeDeletions(cfg: Config, st: PushState, walk: seq<Entry>, t: Trace)
    requires ValidTrace(cfg, st, walk, t) && !AfterCleanup(cfg, st, walk, t).halted
    ensures var mid := AfterCleanup(cfg, st, walk, t);
            mid.tally.pushed + mid.tally.failed ==
            AskedFor(mid.ledger.ops) - AskedFor(st.ledger.ops) + UnexaminedCount(cfg, walk) + UnreadCount(t.requests) &&
            mid.tally.deleted == 0 && DeletesAskedFor(mid.ledger.ops) == DeletesAskedFor(st.ledger.ops)
  {
    ScanTally(cfg, st.store, walk);
    AfterLinksAccounts(cfg, st, walk, t);
    AfterLinksCounts(cfg, st, walk, t);
    var linked, cleaned := AfterLinks(cfg, st, walk, t), AfterCleanup(cfg, st, walk, t);
    assert cleaned.tally == linked.tally && cleaned.ledger == linked.ledger;
  }

  // ---------------------------------------------------------------------------------------
  // Batches
  // ---------------------------------------------------------------------------------------

  /** After every hundredth entry nothing is left queued; no other entry flushes the batch by being done. */
  lemma {:induction false} HundredthEntryFlushes(cfg: Config, st: PushState, requests: seq<Request>, outs: seq<FileOut>)
    requires |requests| == |outs| > 0 && !Files(cfg, st, requests, outs).halted
    ensures var n := |requests| - 1;
            var before, after := Files(cfg, st, requests[..n], outs[..n]), Files(cfg, st, requests, outs);
            after.tally.processed == st.tally.processed + n + 1 &&
            (after.tally.processed % 100 == 0 ==> after.batch == []) &&
            (after.tally.processed % 100 != 0 ==>
              after.batch == if requests[n].hashed.None? then before.batch else Handle(cfg, before, requests[n], outs[n]).batch)
  {
    var n := |requests| - 1;
    FilesCount(cfg, st, requests, outs);
    EntryFlushes(cfg, Files(cfg, st, requests[..n], outs[..n]), requests[n], outs[n]);
  }

  lemma {:induction false} CompleteFlushes(st: PushState, out: FlushOut)
    requires !Complete(st, out).halted
    ensures var after := Complete(st, out);
            (after.tally.processed % 100 == 0 ==> after.batch == []) && (after.tally.processed % 100 != 0 ==> after.batch == st.batch)
  {
    CompleteCounts(st, out);
    FlushOps(st.(tally := Completed(st.tally)), out);
  }

  lemma {:induction false} EntryFlushes(cfg: Config, before: PushState, r: Request, out: FileOut)
    requires !FileStep(cfg, before, r, out).halted
    ensures var after := FileStep(cfg, before, r, out);
            (after.tally.processed % 100 == 0 ==> after.batch == []) &&
            (after.tally.processed % 100 != 0 ==> after.batch == if r.hashed.None? then before.batch else Handle(cfg, before, r, out).batch)
  {
    if r.hashed.None? {
      CompleteFlushes(before.(tally := Failed(before.tally)), out.progress);
    } else {
      CompleteFlushes(Handle(cfg, before, r, out), out.progress);
    }
  }

  /** Whatever was handed over respected the limits. */
  ghost predicate OpsWithinLimits(cfg: Config, ops: seq<Op>) {
    forall i :: 0 <= i < |ops| && ops[i].Upload? ==> ops[i].files != [] && WithinLimits(ops[i].files, cfg.blob)
  }

  ghost predicate Limited(cfg: Config, st: PushState) {
    OpsWithinLimits(cfg, st.ledger.ops) &&
    (!st.halted ==> WithinLimits(st.batch, cfg.blob) && !FlushNow(st.batch, cfg.blob))
  }

  lemma {:induction false} FlushLimited(cfg: Config, st: PushState, out: FlushOut)
    requires OpsWithinLimits(cfg, st.ledger.ops)
    requires !st.halted ==> WithinLimits(st.batch, cfg.blob)
    ensures Limited(cfg, Flush(st, out))
  {
    FlushOps(st, out);
    assert !FlushNow([], cfg.blob);
  }

  lemma {:induction false} GrownBatchWithinLimits(files: seq<PendingPushFile>, file: PendingPushFile, config: BlobConfig)
    requires WithinLimits(files, config) && !FlushBefore(files, file, config)
    ensures WithinLimits(files + [file], config)
  {
    assert (files + [file])[..|files|] == files;
  }

  lemma {:induction false} EnqueueLimited(cfg: Config, st: PushState, file: PendingPushFile, out: FileOut)
    requires Limited(cfg, st) && !st.halted
    ensures Limited(cfg, Enqueue(cfg, st, file, out))
  {
    var ready := if FlushBefore(st.batch, file, cfg.blob) then Flush(st, out.before) else st;
    FlushLimited(cfg, st, out.before);
    FlushOps(st, out.before);
    if !ready.halted {
      var queued := ready.(batch := ready.batch + [file]);
      GrownBatchWithinLimits(ready.batch, file, cfg.blob);
      FlushLimited(cfg, queued, out.now);
    }
  }

  lemma {:induction false} HandleLimited(cfg: Config, st: PushState, r: Request, out: FileOut)
    requires Limited(cfg, st) && !st.halted && r.hashed.Some?
    ensures Limited(cfg, Handle(cfg, st, r, out))
  {
    var decision := Decide(st.remote, st.mem, r, out);
    if decision.Queue? {
      EnqueueLimited(cfg, st, Candidate(r), out);
    } else {
      NotQueued(cfg, st, r, out);
      LimitedFollows(cfg, st, Handle(cfg, st, r, out));
    }
  }

  lemma {:induction false} LimitedFollows(cfg: Config, before: PushState, after: PushState)
    requires Limited(cfg, before) && !before.halted && after.batch == before.batch
    requires after.ledger.ops == before.ledger.ops ||
             exists op: Op :: !op.Upload? && after.ledger.ops == before.ledger.ops + [op]
    ensures Limited(cfg, after)
  {
  }

  lemma {:induction false} CompleteLimited(cfg: Config, st: PushState, out: FlushOut)
    requires Limited(cfg, st)
    ensures Limited(cfg, Complete(st, out))
  {
    FlushLimited(cfg, st.(tally := Completed(st.tally)), out);
  }

  lemma {:induction false} FileStepLimited(cfg: Config, st: PushState, r: Request, out: FileOut)
    requires Limited(cfg, st)
    ensures Limited(cfg, FileStep(cfg, st, r, out))
  {
    if !st.halted {
      if r.hashed.None? {
        CompleteLimited(cfg, st.(tally := Failed(st.tally)), out.progress);
      } else {
        HandleLimited(cfg, st, r, out);
        CompleteLimited(cfg, Handle(cfg, st, r, out), out.progress);
      }
    }
  }

  lemma {:induction false} FilesLimited(cfg: Config, st: PushState, requests: seq<Request>, outs: seq<FileOut>)
    requires |requests| == |outs| && Limited(cfg, st)
    ensures Limited(cfg, Files(cfg, st, requests, outs))
  {
    if requests != [] {
      var n := |requests| - 1;
      FilesLimited(cfg, st, requests[..n], outs[..n]);
      FileStepLimited(cfg, Files(cfg, st, requests[..n], outs[..n]), requests[n], outs[n]);
    }
  }

  lemma {:induction false} LinksHandNothing(cfg: Config, st: PushState, tasks: seq<LinkTask>, outs: seq<LinkOut>)
    requires |tasks| == |outs| && OpsWithinLimits(cfg, st.ledger.ops)
    ensures OpsWithinLimits(cfg, Links(cfg, st, tasks, outs).ledger.ops)
  {
    if tasks != [] {
      LinksHandNothing(cfg, st, tasks[..|tasks| - 1], outs[..|tasks| - 1]);
    }
  }

  lemma {:induction false} DeletionsHandNothing(cfg: Config, st: PushState, paths: seq<string>, outs: seq<DeleteOut>)
    requires |paths| == |outs| && OpsWithinLimits(cfg, st.ledger.ops)
    ensures OpsWithinLimits(cfg, Deletions(st, paths, outs).ledger.ops)
  {
    if paths != [] {
      DeletionsHandNothing(cfg, st, paths[..|paths| - 1], outs[..|paths| - 1]);
    }
  }

  /** In any run, finished or not, every batch handed over is within the limits. */
  lemma {:induction false} EveryBatchWithinLimits(cfg: Config, st: PushState, walk: seq<Entry>, t: Trace)
    requires ValidTrace(cfg, st, walk, t) && OpsWithinLimits(cfg, st.ledger.ops)
    ensures OpsWithinLimits(cfg, After(cfg, st, walk, t).ledger.ops)
  {
    var start := AfterScan(cfg, st, walk);
    assert !FlushNow([], cfg.blob);
    FilesLimited(cfg, start, t.requests, t.fileOuts);
    FlushLimited(cfg, Files(cfg, start, t.requests, t.fileOuts), t.lastFlush);
    LinksHandNothing(cfg, AfterFiles(cfg, st, walk, t), t.links, t.linkOuts);
    DeletionsHandNothing(cfg, AfterCleanup(cfg, st, walk, t), t.deletions, t.deleteOuts);
  }
}
