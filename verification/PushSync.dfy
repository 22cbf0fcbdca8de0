/** The push as the client carries it out, phase by phase, against the specification in `Push`. */
module PushSync {
  import opened Prelude
  import opened Chunks
  import opened Planning
  import Batching
  import opened Hierarchy
  import opened MetadataStore
  import opened Push
  import PushFacts
  import opened PushResult
  import Upload

  /** Things that finish in whatever order they like. */
  method InAnyOrder<T>(s: seq<T>) returns (order: seq<T>)
    ensures multiset(order) == multiset(s)
  {
    order := [];
    var rest := s;
    while rest != []
      invariant multiset(order) + multiset(rest) == multiset(s)
      decreases |rest|
    {
      var at: int := *;
      var i := if 0 <= at < |rest| then at else 0;
      assert rest == rest[..i] + [rest[i]] + rest[i + 1..];
      order := order + [rest[i]];
      rest := rest[..i] + rest[i + 1..];
    }
  }

  method SetInAnyOrder(s: set<string>) returns (order: seq<string>)
    ensures Distinct(order) && Elements(order) == s
  {
    order := [];
    var rest := s;
    while rest != {}
      invariant Distinct(order) && rest <= s && forall x :: x in order <==> x in s && x !in rest
    {
      var x :| x in rest;
      order := order + [x];
      rest := rest - {x};
    }
  }

  const NO_FLUSH := BatchHalts(Chunked(false))

  /** A query that is not asked counts as answered. */
  const NO_FILE_OUT := FileOut(true, RenameRefused, true, StoppedBeforeDrop, NO_FLUSH, NO_FLUSH, NO_FLUSH)

  const NO_LINK_OUT := LinkOut(false, false)

  function FilePad(n: nat): (pad: seq<FileOut>) ensures |pad| == n { seq(n, i => NO_FILE_OUT) }

  function LinkPad(n: nat): (pad: seq<LinkOut>) ensures |pad| == n { seq(n, i => NO_LINK_OUT) }

  /** Every query about an old name that was asked was answered. */
  ghost predicate AllHeard(outs: seq<FileOut>) {
    forall i :: 0 <= i < |outs| ==> outs[i].sourceAnswered && outs[i].targetAnswered
  }

  /** Reads and digests for which the manifest of these files comes out too large. */
  ghost predicate MayGoDirect(files: seq<PendingPushFile>, config: BlobConfig) {
    exists os: seq<FileReads>, hex: Batching.Hex :: |os| == |files| && Upload.GoesDirect(files, os, config, hex)
  }

  lemma {:induction false} IsolateAfterHalt(st: PushState, files: seq<PendingPushFile>, fates: seq<Fate>, n: nat)
    requires n <= |files| == |fates| && Isolate(st, files[..n], fates[..n]).halted
    ensures Isolate(st, files, fates) == Isolate(st, files[..n], fates[..n])
  {
    if n == |files| {
      assert fates[..n] == fates && files[..n] == files;
    } else {
      var m := |files| - 1;
      assert fates[..m][..n] == fates[..n] && files[..m][..n] == files[..n];
      IsolateAfterHalt(st, files[..m], fates[..m], n);
    }
  }

  lemma {:induction false} FileOneMore(cfg: Config, st: PushState, requests: seq<Request>, outs: seq<FileOut>, r: Request, out: FileOut)
    requires |requests| == |outs|
    ensures Files(cfg, st, requests + [r], outs + [out]) == FileStep(cfg, Files(cfg, st, requests, outs), r, out)
  {
    assert (requests + [r])[..|requests|] == requests && (outs + [out])[..|outs|] == outs;
  }

  /** After a halt nothing more happens, whatever is still on the list. */
  lemma {:induction false} FilesAfterHalt(cfg: Config, st: PushState, requests: seq<Request>, outs: seq<FileOut>, more: seq<Request>)
    requires |requests| == |outs| && (more != [] ==> Files(cfg, st, requests, outs).halted)
    ensures Files(cfg, st, requests + more, outs + FilePad(|more|)) == Files(cfg, st, requests, outs)
    decreases |more|
  {
    if more == [] {
      assert requests + more == requests && outs + FilePad(0) == outs;
    } else {
      FileOneMore(cfg, st, requests, outs, more[0], NO_FILE_OUT);
      FilesAfterHalt(cfg, st, requests + [more[0]], outs + [NO_FILE_OUT], more[1..]);
      assert requests + [more[0]] + more[1..] == requests + more;
      assert outs + [NO_FILE_OUT] + FilePad(|more| - 1) == outs + FilePad(|more|);
    }
  }

  lemma {:induction false} LandOneMore(st: PushState, files: seq<PendingPushFile>, contents: seq<Digest>, file: PendingPushFile, content: Digest)
    requires |files| == |contents|
    ensures LandAll(st, files + [file], contents + [content]) == LandFile(LandAll(st, files, contents), file, content)
  {
    assert (files + [file])[..|files|] == files && (contents + [content])[..|contents|] == contents;
  }

  lemma {:induction false} DeleteOneMore(st: PushState, paths: seq<string>, outs: seq<DeleteOut>, path: string, out: DeleteOut)
    requires |paths| == |outs|
    ensures Deletions(st, paths + [path], outs + [out]) == DeleteStep(Deletions(st, paths, outs), path, out)
  {
    assert (paths + [path])[..|paths|] == paths && (outs + [out])[..|outs|] == outs;
  }

  lemma {:induction false} HandleIgnoresProgress(cfg: Config, st: PushState, r: Request, out: FileOut, progress: FlushOut)
    requires r.hashed.Some?
    ensures Handle(cfg, st, r, out.(progress := progress)) == Handle(cfg, st, r, out)
  {
  }

  lemma {:induction false} LinksAfterHalt(cfg: Config, st: PushState, tasks: seq<LinkTask>, outs: seq<LinkOut>)
    requires |tasks| == |outs| && st.halted
    ensures Links(cfg, st, tasks, outs) == st
  {
    if tasks != [] {
      LinksAfterHalt(cfg, st, tasks[..|tasks| - 1], outs[..|tasks| - 1]);
    }
  }

  class PushRun {
    const cfg: Config
    const batch: Batching.PushBatch
    var remote: Remote
    var store: View
    var metadataByPath: View
    var pendingMetadataUpdates: seq<FileSyncMeta>
    var tally: Tally
    var halted: bool                          // the push has returned an error
    ghost var ledger: Ledger
    ghost var unanswered: bool                // some query about an old name failed

    constructor (cfg: Config, remote: Remote, store: View, ghost ledger: Ledger)
      ensures Valid() && fresh(batch) && !halted && !unanswered && this.cfg == cfg
      ensures State() == PushState(remote, store, store, [], [], NO_TALLY, false, ledger)
    {
      this.cfg, this.remote, this.store, this.ledger := cfg, remote, store, ledger;
      metadataByPath, pendingMetadataUpdates, tally, halted, unanswered := store, [], NO_TALLY, false, false;
      var b := new Batching.PushBatch();
      batch := b;
    }

    ghost predicate Valid()
      reads this, batch
    {
      batch.Valid(cfg.blob)
    }

    ghost function State(): PushState
      reads this, batch
    {
      PushState(remote, store, metadataByPath, pendingMetadataUpdates, batch.files, tally, halted, ledger)
    }

    // -------------------------------------------------------------------------------------
    // Flushing
    // -------------------------------------------------------------------------------------

    /** A file arrives on the server with this content. */
    method Land(file: PendingPushFile, content: Digest)
      requires Valid()
      modifies this`remote, this`ledger
      ensures Valid() && State() == LandFile(old(State()), file, content)
    {
      remote := remote[file.remotePath := RFile(content)];
      ledger := LandFile(old(State()), file, content).ledger;
    }

    /** The server commits every file under its queued hash, or nothing; the answer may get lost. */
    method CommitBatch(files: seq<PendingPushFile>) returns (accepted: bool, ghost delivery: Delivery)
      requires Valid()
      modifies this`remote, this`ledger
      ensures Valid() && State() == Arrive(old(State()), files, delivery)
      ensures delivery.Chunked? && (accepted ==> |Arrivals(files, delivery)| == |files|)
    {
      var arrived: bool := *;
      accepted := false;
      delivery := Chunked(arrived);
      if !arrived {
        return;
      }
      for n := 0 to |files|
        invariant Valid() && State() == LandAll(old(State()), files[..n], Declared(files)[..n])
      {
        Land(files[n], files[n].contentHash);
        assert files[..n + 1][..n] == files[..n] && Declared(files)[..n + 1][..n] == Declared(files)[..n];
      }
      assert files[..|files|] == files && Declared(files)[..|files|] == Declared(files);
      accepted := *;
    }

    /** The files one after the other, each with whatever it holds by now, until one fails. */
    method StreamBatch(files: seq<PendingPushFile>) returns (accepted: bool, ghost delivery: Delivery)
      requires Valid()
      modifies this`remote, this`ledger
      ensures Valid() && State() == Arrive(old(State()), files, delivery)
      ensures delivery.Direct? && (accepted ==> |Arrivals(files, delivery)| == |files|)
    {
      ghost var contents: seq<Digest> := [];
      accepted := true;
      var n := 0;
      while n < |files| && accepted
        invariant Valid() && |contents| <= n <= |files| && (accepted ==> |contents| == n)
        invariant State() == LandAll(old(State()), files[..|contents|], contents)
        invariant ledger.streams == old(ledger.streams)
        decreases |files| - n, accepted
      {
        var lands: bool := *;
        accepted := *;
        if lands {
          var content: Digest := *;
          Land(files[n], content);
          LandOneMore(old(State()), files[..n], contents, files[n], content);
          assert files[..n] + [files[n]] == files[..n + 1];
          contents := contents + [content];
        } else {
          accepted := false;
        }
        n := n + 1;
      }
      delivery := Direct(contents);
      ledger := ledger.(streams := ledger.streams + [files]);
    }

    /** What reading the files while planning gives, and how digests are spelled. */
    method ReadAgain() returns (os: seq<FileReads>, hex: Batching.Hex) {
      os, hex := *, *;
    }

    /** `push_batch_via_chunks`: direct if a manifest check says so, chunked otherwise. */
    method UploadBatch(files: seq<PendingPushFile>) returns (accepted: bool, ghost delivery: Delivery)
      requires Valid()
      modifies this`remote, this`ledger
      ensures Valid() && State() == Arrive(old(State()), files, delivery)
      ensures accepted ==> |Arrivals(files, delivery)| == |files|
      ensures delivery.Direct? ==> MayGoDirect(files, cfg.blob)
    {
      var os, hex := ReadAgain();
      if |os| == |files| && Upload.GoesDirect(files, os, cfg.blob, hex) {
        accepted, delivery := StreamBatch(files);
      } else {
        accepted, delivery := CommitBatch(files);
      }
    }

    /** The records of pushed files, and the counters. */
    method RecordPushed(files: seq<PendingPushFile>)
      requires Valid()
      modifies this`metadataByPath, this`pendingMetadataUpdates, this`tally
      ensures State() == Record(old(State()), files)
    {
      var bytes := 0;
      for n := 0 to |files|
        invariant metadataByPath == WriteAll(old(metadataByPath), Metas(files)[..n])
        invariant pendingMetadataUpdates == old(pendingMetadataUpdates) + Metas(files)[..n]
        invariant bytes == Batching.TotalBytes(files[..n]) && tally == old(tally)
      {
        assert Metas(files)[..n + 1][..n] == Metas(files)[..n] && files[..n + 1][..n] == files[..n];
        var meta := FileMeta(files[n]);
        metadataByPath := metadataByPath[meta.path := meta];
        pendingMetadataUpdates := pendingMetadataUpdates + [meta];
        bytes := bytes + files[n].fileSize;
      }
      assert Metas(files)[..|files|] == Metas(files) && files[..|files|] == files;
      tally := tally.(pushed := tally.pushed + |files|, bytes := tally.bytes + bytes);
    }

    /** `flush_pending_metadata_updates`: the last record of every path, in one batch. */
    method FlushPendingMetadataUpdates() returns (stored: bool)
      requires Valid()
      modifies this`store, this`pendingMetadataUpdates, this`halted
      ensures State() == FlushPending(old(State()), stored)
    {
      stored := *;
      if halted || pendingMetadataUpdates == [] {
        return;
      }
      var metas := CoalesceFileMetas(pendingMetadataUpdates);
      CoalescedBatchEqualsOneByOne(store, pendingMetadataUpdates, metas);
      pendingMetadataUpdates := [];
      if stored {
        store := WriteAll(store, metas);
      } else {
        halted := true;
      }
    }

    /** `record_push_failure`; an error that ends the push is not recorded. */
    method RecordPushFailure(file: PendingPushFile, error: Upload.ErrorClass, ghost before: PushState, ghost delivery: Delivery)
      returns (ghost fate: Fate)
      requires Valid() && !halted && !before.halted && State() == Arrive(before, [file], delivery)
      modifies this`store, this`tally, this`halted, this`ledger
      ensures Valid() && (halted <==> error.Transient? || error.Unrecoverable?)
      ensures !fate.FileLanded? && fate.delivery == delivery && State() == IsolateFile(before, file, fate)
      ensures (fate.FileForbidden? <==> error.Forbidden?) && (fate.FileRefused? <==> error.OtherError?)
    {
      PushFacts.ArriveShape(before, [file], delivery);
      fate := FileRefused(delivery);
      if error.Transient? || error.Unrecoverable? {
        halted := true;
        return FileHalts(delivery);
      }
      tally := Failed(tally);
      if error.Forbidden? {
        var suppressed: bool := *;
        fate := FileForbidden(delivery, suppressed);
        if suppressed {
          store := store[file.remotePath := FileMeta(file)];
          ledger := ledger.(suppressed := ledger.suppressed + {(file.remotePath, file.contentHash)});
        }
      }
    }

    /** One file on its own. */
    method IsolateOne(file: PendingPushFile) returns (accepted: bool, ghost fate: Fate)
      requires Valid() && !halted
      modifies this`remote, this`store, this`tally, this`halted, this`ledger
      ensures Valid() && State() == IsolateFile(old(State()), file, fate) && (!halted ==> (accepted <==> fate.FileLanded?))
    {
      ghost var delivery: Delivery;
      accepted, delivery := UploadBatch([file]);
      PushFacts.ArriveShape(old(State()), [file], delivery);
      if accepted {
        fate := FileLanded(delivery);
      } else {
        var error: Upload.ErrorClass := *;
        fate := RecordPushFailure(file, error, old(State()), delivery);
      }
    }

    /** File by file, until one error ends the push. */
    method IsolateFiles(files: seq<PendingPushFile>) returns (good: seq<PendingPushFile>, ghost fates: seq<Fate>)
      requires Valid() && !halted
      modifies this`remote, this`store, this`tally, this`halted, this`ledger
      ensures Valid() && |fates| == |files| && State() == Isolate(old(State()), files, fates)
      ensures !halted ==> good == Good(files, fates)
    {
      good, fates := [], [];
      for n := 0 to |files|
        invariant Valid() && !halted && |fates| == n && good == Good(files[..n], fates)
        invariant State() == Isolate(old(State()), files[..n], fates)
      {
        var accepted, fate := IsolateOne(files[n]);
        assert files[..n + 1][..n] == files[..n] && (fates + [fate])[..n] == fates;
        fates := fates + [fate];
        if halted {
          ghost var done := fates;
          fates := fates + seq(|files| - (n + 1), i => FileRefused(Chunked(false)));
          assert fates[..n + 1] == done;
          IsolateAfterHalt(old(State()), files, fates, n + 1);
          return;
        }
        if accepted {
          good := good + [files[n]];
        }
      }
      assert files[..|files|] == files;
    }

    /** `flush_push_batch`. */
    method FlushPushBatch() returns (ghost out: FlushOut)
      requires Valid() && !halted
      modifies this`remote, this`store, this`metadataByPath, this`pendingMetadataUpdates, this`tally, this`halted, this`ledger, batch
      ensures Valid() && State() == Flush(old(State()), out)
    {
      out := NO_FLUSH;
      if batch.files == [] {
        return;
      }
      var files := batch.TakeFiles(cfg.blob);
      ledger := ledger.(ops := ledger.ops + [Push.Upload(files)]);
      ghost var issued := State();
      var accepted, delivery := UploadBatch(files);
      PushFacts.ArriveShape(issued, files, delivery);
      var error: Upload.ErrorClass := *;
      if accepted {
        RecordPushed(files);
        var stored := FlushPendingMetadataUpdates();
        out := BatchLanded(delivery, stored);
      } else if error.Transient? || error.Unrecoverable? {
        halted := true;
        out := BatchHalts(delivery);
      } else {
        var fates, stored := Isolation(files);
        out := Isolated(delivery, fates, stored);
      }
    }

    /** The batch was refused: every file on its own. */
    method Isolation(files: seq<PendingPushFile>) returns (ghost fates: seq<Fate>, stored: bool)
      requires Valid() && !halted
      modifies this`remote, this`store, this`metadataByPath, this`pendingMetadataUpdates, this`tally, this`halted, this`ledger
      ensures Valid() && |fates| == |files| && State() == IsolateAll(old(State()), files, fates, stored)
    {
      var good;
      stored := false;
      good, fates := IsolateFiles(files);
      if halted {
        return;
      }
      RecordPushed(good);
      stored := FlushPendingMetadataUpdates();
    }

    /** An entry is done. */
    method CompleteEntry() returns (ghost out: FlushOut)
      requires Valid() && !halted
      modifies this`remote, this`store, this`metadataByPath, this`pendingMetadataUpdates, this`tally, this`halted, this`ledger, batch
      ensures Valid() && State() == Complete(old(State()), out)
    {
      out := NO_FLUSH;
      tally := Completed(tally);
      if tally.processed % 100 == 0 {
        out := FlushPushBatch();
      }
    }

    // -------------------------------------------------------------------------------------
    // The scan
    // -------------------------------------------------------------------------------------

    /** The first loop over the walked entries; the batch is empty all along. */
    method ScanEntries(walk: seq<Entry>) returns (scan: Scan)
      requires Valid() && !halted && batch.files == [] && tally == NO_TALLY
      modifies this`remote, this`store, this`metadataByPath, this`pendingMetadataUpdates, this`tally, this`halted, this`ledger, batch
      ensures Valid() && scan == ScanAll(cfg, old(metadataByPath), walk)
      ensures State() == old(State()).(tally := scan.tally)
    {
      scan := NO_SCAN;
      for n := 0 to |walk|
        invariant Valid() && scan == ScanAll(cfg, old(metadataByPath), walk[..n])
        invariant State() == old(State()).(tally := scan.tally)
      {
        assert walk[..n + 1][..n] == walk[..n];
        scan := ScanEntry(scan, walk[n]);
      }
      assert walk[..|walk|] == walk;
    }

    method ScanEntry(before: Scan, e: Entry) returns (scan: Scan)
      requires Valid() && !halted && batch.files == [] && tally == before.tally
      modifies this`remote, this`store, this`metadataByPath, this`pendingMetadataUpdates, this`tally, this`halted, this`ledger, batch
      ensures Valid() && scan == ScanStep(cfg, old(metadataByPath), before, e)
      ensures State() == old(State()).(tally := scan.tally)
    {
      scan := if Marks(cfg, e) then before.(seen := before.seen + {RemotePath(cfg, e)}) else before;
      var verdict := Judge(cfg, metadataByPath, e);
      if verdict.Prepare? {
        scan := scan.(requests := scan.requests + [verdict.request]);
      } else if verdict.MakeLink? {
        scan := scan.(links := scan.links + [verdict.task]);
      } else {
        if verdict.Unreadable? {
          tally := Failed(tally);
        } else if verdict.Skip? {
          tally := Skipped(tally);
        }
        ghost var out := CompleteEntry();
        scan := scan.(tally := tally);
      }
    }

    // -------------------------------------------------------------------------------------
    // Prepared files
    // -------------------------------------------------------------------------------------

    /** `remote_path_has_content_hash`, honest if it answers. */
    method RemotePathHasContentHash(path: string, hash: Digest) returns (answer: Option<bool>)
      modifies this`unanswered
      ensures answer.Some? ==> answer.value == HasContent(remote, path, hash)
      ensures unanswered <==> old(unanswered) || answer.None?
    {
      var answers: bool := *;
      answer := if answers then Some(HasContent(remote, path, hash)) else None;
      unanswered := unanswered || answer.None?;
    }

    method SkipByHash(r: Request)
      requires Valid() && r.hashed.Some? && r.stored.Some?
      modifies this`metadataByPath, this`pendingMetadataUpdates, this`tally
      ensures State() == HashSkipped(old(State()), r)
    {
      if NeedsUpdate(r.stored.value, r.hashed.value.size, r.mtime) {
        metadataByPath := metadataByPath[r.path := MetaOf(r)];
        pendingMetadataUpdates := pendingMetadataUpdates + [MetaOf(r)];
      }
      tally := Skipped(tally);
    }

    /** The move of one file of a migrated root: verify the source, rename, rewrite the records. */
    method TryMove(r: Request) returns (handled: bool, ghost answered: bool, ghost end: MoveEnd)
      requires Valid() && !halted && r.hashed.Some?
      modifies this`remote, this`store, this`metadataByPath, this`tally, this`halted, this`ledger, this`unanswered
      ensures unanswered <==> old(unanswered) || !answered
      ensures handled <==> Movable(old(metadataByPath), r, r.hashed.value.hash) && answered &&
                           HasContent(old(remote), r.oldPath.value, r.hashed.value.hash)
      ensures State() == if handled then MigratedFile(old(State()), r, end) else old(State())
    {
      handled, answered, end := false, true, RenameRefused;
      if !Movable(metadataByPath, r, r.hashed.value.hash) {
        return;
      }
      var from := r.oldPath.value;
      var verified := RemotePathHasContentHash(from, r.hashed.value.hash);
      if verified != Some(true) {
        answered := verified.Some?;
        return;
      }
      handled := true;
      end := RenameAndRecord(r);
    }

    method RenameAndRecord(r: Request) returns (ghost end: MoveEnd)
      requires Valid() && !halted && r.hashed.Some? && r.oldPath.Some?
      modifies this`remote, this`store, this`metadataByPath, this`tally, this`halted, this`ledger
      ensures State() == MigratedFile(old(State()), r, end)
    {
      var from := r.oldPath.value;
      var renamed: bool := *;
      ledger := ledger.(ops := ledger.ops + [Rename(from, r.path)]);
      if !renamed {
        tally := Failed(tally);
        return RenameRefused;
      }
      remote := (remote - {from})[r.path := RFile(r.hashed.value.hash)];
      ledger := ledger.(held := ledger.held + {(r.path, r.hashed.value.hash)});
      var dropped: bool := *;
      if !dropped {
        halted := true;
        return StoppedRenamed;
      }
      store := store - {from};
      var written: bool := *;
      if !written {
        halted := true;
        return StoppedDropped;
      }
      store := store[r.path := MetaOf(r)];
      metadataByPath := (metadataByPath - {from})[r.path := MetaOf(r)];
      tally := PushedOne(tally);
      end := Moved;
    }

    /** The target of the migration already has the content. */
    method TryAdopt(r: Request) returns (handled: bool, ghost answered: bool, ghost end: AdoptEnd)
      requires Valid() && !halted && r.hashed.Some?
      modifies this`store, this`metadataByPath, this`tally, this`halted, this`unanswered
      ensures unanswered <==> old(unanswered) || !answered
      ensures handled <==> r.oldPath.Some? && answered && HasContent(remote, r.path, r.hashed.value.hash)
      ensures State() == if handled then AdoptedFile(old(State()), r, end) else old(State())
    {
      handled, answered, end := false, true, StoppedBeforeDrop;
      if r.oldPath.None? {
        return;
      }
      var verified := RemotePathHasContentHash(r.path, r.hashed.value.hash);
      if verified != Some(true) {
        answered := verified.Some?;
        return;
      }
      handled := true;
      var from := r.oldPath.value;
      if from in metadataByPath {
        var dropped: bool := *;
        if !dropped {
          halted := true;
          return;
        }
        store := store - {from};
        metadataByPath := metadataByPath - {from};
      }
      end := StoppedBeforeSet;
      var written: bool := *;
      if !written {
        halted := true;
        return;
      }
      store := store[r.path := MetaOf(r)];
      metadataByPath := metadataByPath[r.path := MetaOf(r)];
      tally := Skipped(tally);
      end := Adopted;
    }

    method QueueFile(file: PendingPushFile, ghost partial: FileOut) returns (ghost out: FileOut)
      requires Valid() && !halted
      modifies this`remote, this`store, this`metadataByPath, this`pendingMetadataUpdates, this`tally, this`halted, this`ledger, batch
      ensures Valid() && out == partial.(before := out.before, now := out.now)
      ensures State() == Enqueue(cfg, old(State()), file, out)
    {
      out := partial;
      var before := batch.ShouldFlushBefore(file, cfg.blob);
      if before {
        ghost var flushed := FlushPushBatch();
        out := out.(before := flushed);
        if halted {
          return;
        }
      }
      batch.Push(file, cfg.blob);
      var now := batch.ShouldFlushNow(cfg.blob);
      if now {
        ghost var flushed := FlushPushBatch();
        out := out.(now := flushed);
      }
    }

    /** Recognised, moved, adopted or queued. */
    method HandlePrepared(r: Request) returns (ghost out: FileOut)
      requires Valid() && !halted && r.hashed.Some?
      modifies this`remote, this`store, this`metadataByPath, this`pendingMetadataUpdates, this`tally, this`halted, this`ledger, batch, this`unanswered
      ensures old(unanswered) ==> unanswered
      ensures !unanswered ==> out.sourceAnswered && out.targetAnswered
      ensures Valid() && State() == Handle(cfg, old(State()), r, out)
    {
      out := NO_FILE_OUT;
      if r.stored.Some? && r.stored.value.contentHash == r.hashed.value.hash {
        SkipByHash(r);
        return;
      }
      if r.stored.None? {
        var moved, sourceAnswered, move := TryMove(r);
        out := out.(sourceAnswered := sourceAnswered, move := move);
        if moved {
          return;
        }
        var adopted, targetAnswered, adopt := TryAdopt(r);
        out := out.(targetAnswered := targetAnswered, adopt := adopt);
        if adopted {
          return;
        }
      }
      out := QueueFile(Candidate(r), out);
    }

    method ProcessPrepared(r: Request) returns (ghost out: FileOut)
      requires Valid() && !halted
      modifies this`remote, this`store, this`metadataByPath, this`pendingMetadataUpdates, this`tally, this`halted, this`ledger, batch, this`unanswered
      ensures old(unanswered) ==> unanswered
      ensures !unanswered ==> out.sourceAnswered && out.targetAnswered
      ensures Valid() && State() == FileStep(cfg, old(State()), r, out)
    {
      if r.hashed.None? {
        tally := Failed(tally);
        ghost var progress := CompleteEntry();
        return NO_FILE_OUT.(progress := progress);
      }
      out := HandlePrepared(r);
      if halted {
        return;
      }
      ghost var progress := CompleteEntry();
      HandleIgnoresProgress(cfg, old(State()), r, out, progress);
      out := out.(progress := progress);
    }

    /** The second loop, over the files as they get ready, until an error ends the push. */
    method ProcessFiles(requests: seq<Request>) returns (ghost outs: seq<FileOut>)
      requires Valid() && !halted
      modifies this`remote, this`store, this`metadataByPath, this`pendingMetadataUpdates, this`tally, this`halted, this`ledger, batch, this`unanswered
      ensures !unanswered ==> AllHeard(outs)
      ensures Valid() && |outs| <= |requests| && (|outs| < |requests| ==> halted)
      ensures State() == Files(cfg, old(State()), requests[..|outs|], outs)
    {
      outs := [];
      for n := 0 to |requests|
        invariant Valid() && !halted && |outs| == n
        invariant State() == Files(cfg, old(State()), requests[..n], outs)
        invariant !unanswered ==> AllHeard(outs)
      {
        ghost var out := ProcessPrepared(requests[n]);
        assert requests[..n + 1][..n] == requests[..n] && (outs + [out])[..n] == outs;
        outs := outs + [out];
        if halted {
          return;
        }
      }
    }

    // -------------------------------------------------------------------------------------
    // Symlinks, cleanup, deletions
    // -------------------------------------------------------------------------------------

    method PushSymlink(task: LinkTask) returns (ghost out: LinkOut)
      requires Valid() && !halted
      modifies this`remote, this`metadataByPath, this`pendingMetadataUpdates, this`tally, this`ledger
      ensures State() == LinkStep(cfg, old(State()), task, out)
    {
      tally := Completed(tally);
      var inspected: bool := *;
      var made: bool := *;
      out := LinkOut(inspected, made);
      if cfg.mode.Lite? && inspected && Get(remote, task.path) == Some(RLink(task.hash)) {
        tally := Skipped(tally);
      } else {
        ledger := ledger.(ops := ledger.ops + [PutLink(task.path)]);
        if !made {
          tally := Failed(tally);
          return;
        }
        remote := remote[task.path := RLink(task.hash)];
        ledger := ledger.(held := ledger.held + {(task.path, task.hash)});
        tally := PushedOne(tally);
      }
      metadataByPath := metadataByPath[task.path := LinkMeta(task)];
      pendingMetadataUpdates := pendingMetadataUpdates + [LinkMeta(task)];
    }

    /** `push_pending_symlinks`. */
    method PushPendingSymlinks(tasks: seq<LinkTask>) returns (ghost outs: seq<LinkOut>, stored: bool)
      requires Valid() && !halted
      modifies this`remote, this`store, this`metadataByPath, this`pendingMetadataUpdates, this`tally, this`halted, this`ledger
      ensures Valid() && |outs| == |tasks| && State() == FlushPending(Links(cfg, old(State()), tasks, outs), stored)
    {
      outs := [];
      for n := 0 to |tasks|
        invariant Valid() && !halted && |outs| == n
        invariant State() == Links(cfg, old(State()), tasks[..n], outs)
      {
        ghost var out := PushSymlink(tasks[n]);
        assert tasks[..n + 1][..n] == tasks[..n] && (outs + [out])[..n] == outs;
        outs := outs + [out];
      }
      assert tasks[..|tasks|] == tasks;
      stored := FlushPendingMetadataUpdates();
    }

    /** `cleanup_unseen_migration_metadata`, if nothing has failed so far. */
    method CleanupUnseenMigrationMetadata(seen: set<string>) returns (ghost finishes: bool, ghost dropped: set<string>)
      requires Valid() && !halted
      modifies this`store, this`metadataByPath, this`halted
      ensures Valid() && State() == Cleanup(cfg, old(State()), seen, finishes, dropped)
    {
      finishes, dropped := true, {};
      if cfg.migration.None? || tally.errors > 0 {
        return;
      }
      var stale := StalePaths(cfg, metadataByPath, seen);
      var rest := stale;
      while rest != {}
        invariant Valid() && rest <= stale && dropped == stale - rest && !halted
        invariant store == old(store) - dropped && metadataByPath == old(metadataByPath) - dropped
        invariant State() == old(State()).(store := store, mem := metadataByPath)
      {
        var path :| path in rest;
        var deleted: bool := *;
        if !deleted {
          halted := true;
          finishes := false;
          assert dropped * stale == dropped;
          return;
        }
        store := store - {path};
        metadataByPath := metadataByPath - {path};
        dropped := dropped + {path};
        rest := rest - {path};
      }
      assert dropped == stale;
    }

    /** Records without a file: the remote file goes, then its record. */
    method DeleteMissing(paths: seq<string>) returns (ghost outs: seq<DeleteOut>)
      requires Valid() && !halted
      modifies this`remote, this`store, this`tally, this`halted, this`ledger
      ensures Valid() && |outs| == |paths| && State() == Deletions(old(State()), paths, outs)
    {
      outs := [];
      for n := 0 to |paths|
        invariant Valid() && !halted && |outs| == n
        invariant State() == Deletions(old(State()), paths[..n], outs)
      {
        ghost var out := DeleteMissingFile(paths[n]);
        DeleteOneMore(old(State()), paths[..n], outs, paths[n], out);
        assert paths[..n] + [paths[n]] == paths[..n + 1];
        outs := outs + [out];
        if halted {
          ghost var done := outs;
          outs := outs + seq(|paths| - (n + 1), i => DeleteRefused);
          assert outs[..n + 1] == done;
          DeletionsAfterHalt(old(State()), paths, outs, n + 1);
          return;
        }
      }
      assert paths[..|paths|] == paths;
    }

    method DeleteMissingFile(path: string) returns (ghost out: DeleteOut)
      requires Valid() && !halted
      modifies this`remote, this`store, this`tally, this`halted, this`ledger
      ensures State() == DeleteStep(old(State()), path, out)
    {
      ledger := ledger.(ops := ledger.ops + [Delete(path)]);
      var removed: bool := *;
      if !removed {
        tally := Failed(tally);
        return DeleteRefused;
      }
      remote := remote - {path};
      var dropped: bool := *;
      if !dropped {
        halted := true;
        return StoppedDeleted;
      }
      store := store - {path};
      tally := tally.(deleted := tally.deleted + 1);
      out := Deleted;
    }

    // -------------------------------------------------------------------------------------
    // The whole push
    // -------------------------------------------------------------------------------------

    /** The file phase: scan, prepared files in any order, last flush. */
    method PushFiles(walk: seq<Entry>) returns (scan: Scan, ghost t: Trace)
      requires Valid() && !halted && State() == Started(State(), NO_TALLY)
      modifies this`remote, this`store, this`metadataByPath, this`pendingMetadataUpdates, this`tally, this`halted, this`ledger, batch, this`unanswered
      ensures !unanswered ==> AllHeard(t.fileOuts)
      ensures Valid() && scan == ScanAll(cfg, old(store), walk)
      ensures |t.requests| == |t.fileOuts| && multiset(t.requests) == multiset(scan.requests)
      ensures t.links == [] && t.linkOuts == [] && t.deletions == [] && t.deleteOuts == []
      ensures State() == AfterFiles(cfg, old(State()), walk, t)
    {
      scan := ScanEntries(walk);
      var requests := InAnyOrder(scan.requests);
      ghost var scanned := State();
      ghost var done := ProcessFiles(requests);
      ghost var outs := done + FilePad(|requests| - |done|);
      FilesAfterHalt(cfg, scanned, requests[..|done|], done, requests[|done|..]);
      assert requests[..|done|] + requests[|done|..] == requests;
      ghost var lastFlush := NO_FLUSH;
      var stored := false;
      if !halted {
        lastFlush := FlushPushBatch();
        stored := FlushPendingMetadataUpdates();
      }
      t := Trace(requests, outs, lastFlush, stored, [], [], false, true, {}, [], []);
    }

    /** Symlinks, unless the push is over. */
    method LinkPhase(scan: Scan, walk: seq<Entry>, ghost before: PushState, ghost files: Trace) returns (ghost t: Trace)
      requires Valid() && |files.requests| == |files.fileOuts| && State() == AfterFiles(cfg, before, walk, files)
      modifies this`remote, this`store, this`metadataByPath, this`pendingMetadataUpdates, this`tally, this`halted, this`ledger
      ensures Valid() && t == files.(links := t.links, linkOuts := t.linkOuts, linksStored := t.linksStored)
      ensures |t.links| == |t.linkOuts| && multiset(t.links) == multiset(scan.links)
      ensures State() == AfterLinks(cfg, before, walk, t)
    {
      var links := InAnyOrder(scan.links);
      if halted {
        LinksAfterHalt(cfg, State(), links, LinkPad(|links|));
        t := files.(links := links, linkOuts := LinkPad(|links|), linksStored := false);
        return;
      }
      var outs, stored := PushPendingSymlinks(links);
      t := files.(links := links, linkOuts := outs, linksStored := stored);
    }

    /** The end of a root migration, unless the push is over. */
    method CleanupPhase(scan: Scan, walk: seq<Entry>, ghost before: PushState, ghost linked: Trace) returns (ghost t: Trace)
      requires Valid() && |linked.requests| == |linked.fileOuts| && |linked.links| == |linked.linkOuts|
      requires State() == AfterLinks(cfg, before, walk, linked) && scan == ScanAll(cfg, before.store, walk)
      modifies this`store, this`metadataByPath, this`halted
      ensures Valid() && t == linked.(cleanupFinishes := t.cleanupFinishes, dropped := t.dropped)
      ensures State() == AfterCleanup(cfg, before, walk, t)
    {
      if halted {
        return linked;
      }
      var finishes, dropped := CleanupUnseenMigrationMetadata(scan.seen);
      t := linked.(cleanupFinishes := finishes, dropped := dropped);
    }

    /** Deletions, unless the push is over. */
    method DeletePhase(scan: Scan, walk: seq<Entry>, ghost before: PushState, ghost cleaned: Trace) returns (ghost t: Trace)
      requires Valid() && |cleaned.requests| == |cleaned.fileOuts| && |cleaned.links| == |cleaned.linkOuts| && cleaned.deletions == [] && cleaned.deleteOuts == []
      requires State() == AfterCleanup(cfg, before, walk, cleaned)
      modifies this`remote, this`store, this`tally, this`halted, this`ledger
      ensures Valid() && t == cleaned.(deletions := t.deletions, deleteOuts := t.deleteOuts)
      ensures |t.deletions| == |t.deleteOuts| && Distinct(t.deletions)
      ensures !old(halted) ==> Elements(t.deletions) == DeletionCandidates(cfg, old(metadataByPath), scan.seen)
      ensures State() == After(cfg, before, walk, t)
    {
      t := cleaned;
      if halted {
        return;
      }
      var paths := SetInAnyOrder(DeletionCandidates(cfg, metadataByPath, scan.seen));
      ghost var outs := DeleteMissing(paths);
      t := cleaned.(deletions := paths, deleteOuts := outs);
    }

    /**
     `push_sync`. `ok` is its Ok; `cleared` says that the marker of a root migration goes: exactly
     when the push ended without a single error and the store let it.
     */
    method PushSync(walk: seq<Entry>) returns (ok: bool, cleared: bool, ghost t: Trace)
      requires Valid() && !halted && State() == Started(State(), NO_TALLY)
      modifies this`remote, this`store, this`metadataByPath, this`pendingMetadataUpdates, this`tally, this`halted, this`ledger, batch, this`unanswered
      ensures Valid() && ValidTrace(cfg, old(State()), walk, t)
      ensures State() == After(cfg, old(State()), walk, t)
      ensures cleared ==> ClearsMarker(cfg, State())
      ensures ok ==> !halted && (cleared <==> ClearsMarker(cfg, State()))
      ensures ok && tally.errors == 0 && ledger.overtaken == {} && ProperWalk(walk) && KeysArePaths(old(store)) ==>
                CleanRun(cfg, old(State()), walk, t)
      ensures !unanswered ==> AllHeard(t.fileOuts) && Answered(old(State()), t)
    {
      ghost var before := State();
      var scan, files := PushFiles(walk);
      ghost var linked := LinkPhase(scan, walk, before, files);
      ghost var cleaned := CleanupPhase(scan, walk, before, linked);
      ghost var mid := State();
      t := DeletePhase(scan, walk, before, cleaned);
      TraceHolds(cfg, before, walk, t, mid);
      ok, cleared := !halted, false;
      if !halted && cfg.migration.Some? && tally.errors == 0 {
        cleared := *;
        ok := cleared;
      }
    }
  }

  lemma {:induction false} TraceHolds(cfg: Config, before: PushState, walk: seq<Entry>, t: Trace, cleaned: PushState)
    requires |t.requests| == |t.fileOuts| && |t.links| == |t.linkOuts| && |t.deletions| == |t.deleteOuts| && Distinct(t.deletions)
    requires var scan := ScanAll(cfg, before.store, walk);
             multiset(t.requests) == multiset(scan.requests) && multiset(t.links) == multiset(scan.links) &&
             (!cleaned.halted ==> Elements(t.deletions) == DeletionCandidates(cfg, cleaned.mem, scan.seen))
    requires cleaned == AfterCleanup(cfg, before, walk, t)
    ensures ValidTrace(cfg, before, walk, t)
  {
  }

  lemma {:induction false} DeletionsAfterHalt(st: PushState, paths: seq<string>, outs: seq<DeleteOut>, n: nat)
    requires n <= |paths| == |outs| && Deletions(st, paths[..n], outs[..n]).halted
    ensures Deletions(st, paths, outs) == Deletions(st, paths[..n], outs[..n])
  {
    if n == |paths| {
      assert outs[..n] == outs && paths[..n] == paths;
    } else {
      var m := |paths| - 1;
      assert outs[..m][..n] == outs[..n] && paths[..m][..n] == paths[..n];
      DeletionsAfterHalt(st, paths[..m], outs[..m], n);
    }
  }
}
