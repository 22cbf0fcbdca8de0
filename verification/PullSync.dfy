/** The pull as the client carries it out, phase by phase, against the specification in `Pull`. */
module PullSync {
  import opened Prelude
  import opened Chunks
  import opened Paths
  import opened Planning
  import opened Assemble
  import opened MetadataStore
  import opened Pull
  import opened PullTerritory

  const SYNC_CHUNKS_BATCH := 2000

  /** The plan for one file entry of the diff. */
  datatype FilePlan = Skip | NoParent | Assembly(localChunks: LocalChunks)

  /** The server's chunk hashes are chunk hashes. */
  ghost predicate HonestHashes(cfg: Config, files: seq<FileEntry>) {
    forall i, h :: 0 <= i < |files| && h in files[i].chunkHashes ==> IsChunkHash(cfg.blob.chunkHashPrefix, h)
  }

  /** What is to be reused is what the old file has on the chunk grid, or nothing if it cannot be read. */
  predicate PlannedFrom(cfg: Config, start: Tree, e: FileEntry, plan: FilePlan) {
    plan.Assembly? ==> plan.localChunks == Reusable(cfg, start, e, true) || plan.localChunks == Reusable(cfg, start, e, false)
  }

  /** Skipped exactly as the trace requires. */
  predicate PlanAgrees(cfg: Config, e: FileEntry, plan: FilePlan) {
    plan.Skip? <==> Excluded(cfg, e.path) || !Passes(cfg, e.path)
  }

  /** Every chunk of a planned file is either on disk or asked for. */
  ghost predicate Asked(e: FileEntry, plan: FilePlan, needed: set<Digest>) {
    plan.Assembly? ==> forall h :: h in e.chunkHashes ==> h in plan.localChunks || h in needed
  }

  /** Fetched bytes hash to the name they came under. */
  ghost predicate FaithfulChunks(prefix: Bytes, fetched: map<Digest, Bytes>) {
    forall h :: h in fetched ==> ChunkHash(prefix, fetched[h]) == h
  }

  /** So they are the one byte string behind that name. */
  lemma {:induction false} FaithfulIsTrue(prefix: Bytes, fetched: map<Digest, Bytes>)
    requires FaithfulChunks(prefix, fetched)
    ensures TrueChunks(prefix, fetched)
  {
    forall h | h in fetched ensures fetched[h] == ChunkBytes(prefix, h) {
      ChunkBytesOfHash(prefix, fetched[h]);
    }
  }

  /** `/sync/chunks`, honest: the bytes behind every hash asked for, or an error. */
  method SyncChunks(prefix: Bytes, batch: seq<Digest>) returns (answer: Option<map<Digest, Bytes>>)
    requires |batch| <= 2000 && forall h :: h in batch ==> IsChunkHash(prefix, h)
    ensures answer.Some? ==> FaithfulChunks(prefix, answer.value) && forall h :: h in batch ==> h in answer.value
  {
    var fails: bool := *;
    if fails {
      return None;
    }
    forall h | h in batch ensures ChunkHash(prefix, ChunkBytes(prefix, h)) == h {
      HashOfChunkBytes(prefix, h);
    }
    answer := Some(map h | h in batch :: ChunkBytes(prefix, h));
  }

  /** Phase 2: everything needed, in batches, until the first error. */
  method FetchChunks(prefix: Bytes, needed: seq<Digest>) returns (fetched: map<Digest, Bytes>, failed: bool)
    requires forall h :: h in needed ==> IsChunkHash(prefix, h)
    ensures TrueChunks(prefix, fetched)
    ensures !failed ==> forall h :: h in needed ==> h in fetched
  {
    fetched, failed := map[], false;
    var at := 0;
    while at < |needed|
      invariant at <= |needed| && !failed
      invariant FaithfulChunks(prefix, fetched)
      invariant forall h :: h in needed[..at] ==> h in fetched
    {
      var end := if at + SYNC_CHUNKS_BATCH < |needed| then at + SYNC_CHUNKS_BATCH else |needed|;
      FrontAndSlice(needed, at, end);
      var pairs := SyncChunks(prefix, needed[at..end]);
      if pairs.None? {
        FaithfulIsTrue(prefix, fetched);
        return fetched, true;
      }
      fetched := fetched + pairs.value;
      at := end;
    }
    assert needed[..|needed|] == needed;
    FaithfulIsTrue(prefix, fetched);
  }

  lemma {:induction false} FrontAndSlice<T>(s: seq<T>, at: nat, end: nat)
    requires at <= end <= |s|
    ensures s[..end] == s[..at] + s[at..end] && forall x :: x in s[at..end] ==> x in s
  {
  }

  method InAnyOrder(s: set<Digest>) returns (items: seq<Digest>)
    ensures forall h :: h in items <==> h in s
  {
    items := [];
    var remaining := s;
    while remaining != {}
      invariant remaining <= s
      invariant forall h :: h in items <==> h in s && h !in remaining
    {
      var h :| h in remaining;
      items := items + [h];
      remaining := remaining - {h};
    }
  }

  lemma {:induction false} OneMoreFile(cfg: Config, st: PullState, items: seq<FileEntry>, outs: seq<FileOutcome>, e: FileEntry, out: FileOutcome)
    requires |items| == |outs|
    ensures ApplyFiles(cfg, st, items + [e], outs + [out]) == FileStep(cfg, ApplyFiles(cfg, st, items, outs), e, out)
  {
    assert (items + [e])[..|items|] == items && (outs + [out])[..|outs|] == outs;
  }

  lemma {:induction false} OneMoreDeletion(cfg: Config, st: PullState, items: seq<string>, outs: seq<DeleteOutcome>, path: string, out: DeleteOutcome)
    requires |items| == |outs|
    ensures ApplyFileDeletes(cfg, st, items + [path], outs + [out]) == FileDeleteStep(cfg, ApplyFileDeletes(cfg, st, items, outs), path, out)
  {
    assert (items + [path])[..|items|] == items && (outs + [out])[..|outs|] == outs;
  }

  lemma {:induction false} OneMoreLink(cfg: Config, st: PullState, items: seq<LinkEntry>, outs: seq<LinkOutcome>, e: LinkEntry, out: LinkOutcome)
    requires |items| == |outs|
    ensures ApplyLinks(cfg, st, items + [e], outs + [out]) == LinkStep(cfg, ApplyLinks(cfg, st, items, outs), e, out)
  {
    assert (items + [e])[..|items|] == items && (outs + [out])[..|outs|] == outs;
  }

  lemma {:induction false} OneMoreLinkDeletion(cfg: Config, st: PullState, items: seq<string>, outs: seq<DeleteOutcome>, path: string, out: DeleteOutcome)
    requires |items| == |outs|
    ensures ApplyLinkDeletes(cfg, st, items + [path], outs + [out]) == LinkDeleteStep(cfg, ApplyLinkDeletes(cfg, st, items, outs), path, out)
  {
    assert (items + [path])[..|items|] == items && (outs + [out])[..|outs|] == outs;
  }

  class PullSync {
    const fs: LocalFs
    var records: View
    var tally: Tally
    var checkpoint: Option<string>

    constructor (fs: LocalFs, records: View, checkpoint: Option<string>)
      ensures this.fs == fs && this.records == records && this.checkpoint == checkpoint && tally == NO_TALLY
    {
      this.fs, this.records, this.checkpoint, this.tally := fs, records, checkpoint, NO_TALLY;
    }

    function State(): PullState
      reads this, fs
    {
      PullState(fs.nodes, records, tally)
    }

    /** Phase 1: what to reuse from disk and what to ask the server for. */
    method PlanFiles(cfg: Config, files: seq<FileEntry>) returns (plans: seq<FilePlan>, needed: set<Digest>)
      requires fs.links == cfg.links && HonestHashes(cfg, files)
      ensures |plans| == |files|
      ensures forall i :: 0 <= i < |files| ==>
                PlanAgrees(cfg, files[i], plans[i]) && PlannedFrom(cfg, fs.nodes, files[i], plans[i]) && Asked(files[i], plans[i], needed)
      ensures forall h :: h in needed ==> IsChunkHash(cfg.blob.chunkHashPrefix, h)
    {
      plans, needed := [], {};
      for n := 0 to |files|
        invariant |plans| == n
        invariant forall i :: 0 <= i < n ==>
                    PlanAgrees(cfg, files[i], plans[i]) && PlannedFrom(cfg, fs.nodes, files[i], plans[i]) && Asked(files[i], plans[i], needed)
        invariant forall h :: h in needed ==> IsChunkHash(cfg.blob.chunkHashPrefix, h)
      {
        var plan := PlanOneFile(cfg, files[n]);
        ghost var before := needed;
        if plan.Assembly? {
          needed := needed + (set h | h in files[n].chunkHashes && h !in plan.localChunks);
        }
        forall i | 0 <= i < n ensures Asked(files[i], plans[i], needed) {
          assert Asked(files[i], plans[i], before);
        }
        plans := plans + [plan];
      }
    }

    method PlanOneFile(cfg: Config, e: FileEntry) returns (plan: FilePlan)
      requires fs.links == cfg.links
      ensures PlanAgrees(cfg, e, plan) && PlannedFrom(cfg, fs.nodes, e, plan)
    {
      if Excluded(cfg, e.path) {
        return Skip;
      }
      if !Passes(cfg, e.path) {
        return Skip;
      }
      var parentMade: bool := *;
      if !parentMade {
        return NoParent;
      }
      var chunks := fs.HashLocalFileChunks(Local(cfg, e.path), cfg.blob.chunkSize, cfg.blob.chunkHashPrefix);
      plan := Assembly(if chunks.Ok? then chunks.value else map[]);
    }

    /** The file itself: assembled next to its destination and renamed over it, or left as it was. */
    method WriteFile(cfg: Config, e: FileEntry, localChunks: LocalChunks, fetched: map<Digest, Bytes>)
      returns (written: Option<(int, Digest)>, ghost leftover: Option<Node>, ghost bytes: Bytes, ghost mtime: int)
      requires fs.links == cfg.links
      modifies fs
      ensures Wrote(cfg, old(fs.nodes), fs.nodes, e, written, leftover, bytes, mtime)
      ensures written.Some? ==> Assembled(OpenedFor(cfg, old(fs.nodes), e), localChunks, fetched, e.chunkHashes) == Some(bytes)
    {
      var path := Local(cfg, e.path);
      TmpPathDiffers(path);
      var result, assembled, at := fs.AssembleFile(e.chunkHashes, path, localChunks, fetched);
      leftover, bytes, mtime := Get(fs.nodes, TmpPath(path)), assembled, at;
      if result.Ok? {
        return Some((result.value.0, result.value.1)), leftover, bytes, mtime;
      }
      SameBut(old(fs.nodes), fs.nodes, TmpPath(path));
      written := None;
    }

    /** Phase 3 for one entry, planned over an earlier tree. */
    method AssembleOne(cfg: Config, e: FileEntry, plan: FilePlan, fetched: map<Digest, Bytes>, fetchFailed: bool, ghost start: Tree)
      returns (ghost out: FileOutcome)
      requires fs.links == cfg.links && PlanAgrees(cfg, e, plan) && PlannedFrom(cfg, start, e, plan)
      requires TrueChunks(cfg.blob.chunkHashPrefix, fetched)
      modifies this`records, this`tally, fs
      ensures out.FileSkipped? <==> Excluded(cfg, e.path) || !Passes(cfg, e.path)
      ensures State() == FileStep(cfg, old(State()), e, out)
      ensures out.FilePulled? ==> Written(cfg, start, old(fs.nodes), e, out.hashed) == Some(out.bytes)
    {
      if plan.Skip? {
        tally := tally.(skipped := tally.skipped + 1);
        return FileSkipped;
      }
      if plan.NoParent? || fetchFailed {
        tally := tally.(failed := tally.failed + 1, errors := tally.errors + 1);
        return FileUnprepared;
      }
      out := AssemblePlanned(cfg, e, plan.localChunks, fetched, start);
    }

    /** Phase 3 for an entry with a plan. */
    method AssemblePlanned(cfg: Config, e: FileEntry, localChunks: LocalChunks, fetched: map<Digest, Bytes>, ghost start: Tree)
      returns (ghost out: FileOutcome)
      requires fs.links == cfg.links && TrueChunks(cfg.blob.chunkHashPrefix, fetched) && PlannedFrom(cfg, start, e, Assembly(localChunks))
      modifies this`records, this`tally, fs
      ensures !out.FileSkipped?
      ensures State() == FileStep(cfg, old(State()), e, out)
      ensures out.FilePulled? ==> Written(cfg, start, old(fs.nodes), e, out.hashed) == Some(out.bytes)
    {
      ghost var before := State();
      var written, leftover, bytes, mtime := WriteFile(cfg, e, localChunks, fetched);
      var statTime: int := *;
      if written.None? {
        tally := tally.(failed := tally.failed + 1, errors := tally.errors + 1);
        out := FileFailed(leftover);
        WriteIsFileStep(cfg, before, fs.nodes, e, written, leftover, bytes, mtime, statTime, false, false);
        return;
      }
      var stored := KeepRecord(FileSyncMeta(e.path, written.value.1, written.value.0, statTime, Synced));
      tally := tally.(pulled := tally.pulled + 1);
      ghost var hashed := localChunks == Reusable(cfg, start, e, true);
      out := FilePulled(hashed, bytes, mtime, statTime, stored);
      WriteIsFileStep(cfg, before, fs.nodes, e, written, leftover, bytes, mtime, statTime, hashed, stored);
      WrittenAsPlanned(cfg, start, before.nodes, e, hashed, fetched);
    }

    /** The record of something pulled; a store error is counted and the pull goes on. */
    method KeepRecord(meta: FileSyncMeta) returns (stored: bool)
      modifies this`records, this`tally
      ensures records == if stored then old(records)[meta.path := meta] else old(records)
      ensures tally == WithErrorUnless(stored, old(tally))
    {
      stored := *;
      if stored {
        records := records[meta.path := meta];
      } else {
        tally := tally.(errors := tally.errors + 1);
      }
    }

    /** Phase 4 for one path. */
    method DeleteFile(cfg: Config, path: string) returns (ghost out: DeleteOutcome)
      requires fs.links == cfg.links
      modifies this`records, this`tally, fs
      ensures out.NotOurs? <==> Excluded(cfg, path)
      ensures State() == FileDeleteStep(cfg, old(State()), path, out)
    {
      if Excluded(cfg, path) {
        return NotOurs;
      }
      var local := Local(cfg, path);
      if Exists(cfg, fs.nodes, local) {
        var removed: bool := *;
        if !removed {
          tally := tally.(failed := tally.failed + 1, errors := tally.errors + 1);
          return DeleteFailed;
        }
        fs.nodes := fs.nodes - {local};
      }
      var dropped := DropMeta(path);
      return Deleted(dropped);
    }

    method DropMeta(path: string) returns (dropped: bool)
      modifies this`records, this`tally
      ensures records == DropRecord(old(records), path, dropped)
      ensures tally == WithErrorUnless(dropped, old(tally).(deleted := old(tally).deleted + 1))
    {
      dropped := *;
      if dropped {
        records := records - {path};
      } else {
        tally := tally.(errors := tally.errors + 1);
      }
      tally := tally.(deleted := tally.deleted + 1);
    }

    /** Phase 5 for one symlink: whatever is there goes first. */
    method MakeLink(cfg: Config, e: LinkEntry) returns (ghost out: LinkOutcome)
      modifies this`records, this`tally, fs
      ensures out.LinkSkipped? <==> Excluded(cfg, e.path)
      ensures State() == LinkStep(cfg, old(State()), e, out)
    {
      if Excluded(cfg, e.path) {
        return LinkSkipped;
      }
      var local := Local(cfg, e.path);
      var parentMade: bool := *;
      if !parentMade {
        tally := tally.(failed := tally.failed + 1, errors := tally.errors + 1);
        return LinkFailed(false);
      }
      var removed: bool := *;
      if local in fs.nodes && removed {
        fs.nodes := fs.nodes - {local};
      }
      var made: bool := *;
      if !made || local in fs.nodes {
        tally := tally.(failed := tally.failed + 1, errors := tally.errors + 1);
        assert local !in old(fs.nodes) ==> old(fs.nodes) - {local} == old(fs.nodes);
        return LinkFailed(removed);
      }
      fs.nodes := fs.nodes[local := LocalLink(e.target)];
      assert fs.nodes == old(fs.nodes)[local := LocalLink(e.target)];
      var now: int := *;
      var stored := KeepRecord(FileSyncMeta(e.path, e.hash, 0, now, Synced));
      tally := tally.(links := tally.links + 1);
      return LinkMade(now, stored);
    }

    /** Phase 6 for one path: anything at all there is removed. */
    method DeleteLink(cfg: Config, path: string) returns (ghost out: DeleteOutcome)
      modifies this`records, this`tally, fs
      ensures out.NotOurs? <==> Excluded(cfg, path)
      ensures State() == LinkDeleteStep(cfg, old(State()), path, out)
    {
      if Excluded(cfg, path) {
        return NotOurs;
      }
      var local := Local(cfg, path);
      if local in fs.nodes {
        var removed: bool := *;
        if !removed {
          tally := tally.(failed := tally.failed + 1, errors := tally.errors + 1);
          return DeleteFailed;
        }
        fs.nodes := fs.nodes - {local};
      }
      assert fs.nodes == old(fs.nodes) - {local};
      var dropped := DropMeta(path);
      return Deleted(dropped);
    }

    /** Phase 3; every file comes out as its plan, the file there by then and the fetched chunks give. */
    method AssembleFiles(cfg: Config, files: seq<FileEntry>, plans: seq<FilePlan>, fetched: map<Digest, Bytes>, fetchFailed: bool)
      returns (ghost outs: seq<FileOutcome>)
      requires fs.links == cfg.links && |plans| == |files| && TrueChunks(cfg.blob.chunkHashPrefix, fetched)
      requires forall i :: 0 <= i < |files| ==> PlanAgrees(cfg, files[i], plans[i]) && PlannedFrom(cfg, fs.nodes, files[i], plans[i])
      modifies this`records, this`tally, fs
      ensures |outs| == |files| && SkipsAgree(cfg, files, outs) && AllAsWritten(cfg, old(State()), files, outs)
      ensures State() == ApplyFiles(cfg, old(State()), files, outs)
    {
      outs := [];
      for n := 0 to |files|
        invariant |outs| == n && SkipsAgree(cfg, files[..n], outs) && AllAsWritten(cfg, old(State()), files[..n], outs)
        invariant State() == ApplyFiles(cfg, old(State()), files[..n], outs)
      {
        assert PlannedFrom(cfg, old(fs.nodes), files[n], plans[n]);
        ghost var out := AssembleOne(cfg, files[n], plans[n], fetched, fetchFailed, old(fs.nodes));
        assert files[..n] + [files[n]] == files[..n + 1];
        OneMoreWritten(cfg, old(State()), files[..n], outs, files[n], out);
        OneMoreFile(cfg, old(State()), files[..n], outs, files[n], out);
        outs := outs + [out];
      }
      assert files[..|files|] == files;
    }

    method DeleteFiles(cfg: Config, paths: seq<string>) returns (ghost outs: seq<DeleteOutcome>)
      requires fs.links == cfg.links
      modifies this`records, this`tally, fs
      ensures |outs| == |paths| && forall i :: 0 <= i < |paths| ==> (outs[i].NotOurs? <==> Excluded(cfg, paths[i]))
      ensures State() == ApplyFileDeletes(cfg, old(State()), paths, outs)
    {
      outs := [];
      for n := 0 to |paths|
        invariant |outs| == n && forall i :: 0 <= i < n ==> (outs[i].NotOurs? <==> Excluded(cfg, paths[i]))
        invariant State() == ApplyFileDeletes(cfg, old(State()), paths[..n], outs)
      {
        ghost var out := DeleteFile(cfg, paths[n]);
        assert paths[..n] + [paths[n]] == paths[..n + 1];
        OneMoreDeletion(cfg, old(State()), paths[..n], outs, paths[n], out);
        outs := outs + [out];
      }
      assert paths[..|paths|] == paths;
    }

    method MakeLinks(cfg: Config, links: seq<LinkEntry>) returns (ghost outs: seq<LinkOutcome>)
      modifies this`records, this`tally, fs
      ensures |outs| == |links| && forall i :: 0 <= i < |links| ==> (outs[i].LinkSkipped? <==> Excluded(cfg, links[i].path))
      ensures State() == ApplyLinks(cfg, old(State()), links, outs)
    {
      outs := [];
      for n := 0 to |links|
        invariant |outs| == n && forall i :: 0 <= i < n ==> (outs[i].LinkSkipped? <==> Excluded(cfg, links[i].path))
        invariant State() == ApplyLinks(cfg, old(State()), links[..n], outs)
      {
        ghost var out := MakeLink(cfg, links[n]);
        assert links[..n] + [links[n]] == links[..n + 1];
        OneMoreLink(cfg, old(State()), links[..n], outs, links[n], out);
        outs := outs + [out];
      }
      assert links[..|links|] == links;
    }

    method DeleteLinks(cfg: Config, paths: seq<string>) returns (ghost outs: seq<DeleteOutcome>)
      modifies this`records, this`tally, fs
      ensures |outs| == |paths| && forall i :: 0 <= i < |paths| ==> (outs[i].NotOurs? <==> Excluded(cfg, paths[i]))
      ensures State() == ApplyLinkDeletes(cfg, old(State()), paths, outs)
    {
      outs := [];
      for n := 0 to |paths|
        invariant |outs| == n && forall i :: 0 <= i < n ==> (outs[i].NotOurs? <==> Excluded(cfg, paths[i]))
        invariant State() == ApplyLinkDeletes(cfg, old(State()), paths[..n], outs)
      {
        ghost var out := DeleteLink(cfg, paths[n]);
        assert paths[..n] + [paths[n]] == paths[..n + 1];
        OneMoreLinkDeletion(cfg, old(State()), paths[..n], outs, paths[n], out);
        outs := outs + [out];
      }
      assert paths[..|paths|] == paths;
    }

    /**
     `pull_sync`, given the server's answer to the diff request. The checkpoint moves to the
     new root hash whatever failed on the way; only where it cannot be saved does the pull end
     with an error, after everything else is done.
     */
    method PullSync(cfg: Config, answer: Option<Diff>) returns (ok: bool, ghost trace: Trace)
      requires fs.links == cfg.links
      requires answer.Some? ==> HonestHashes(cfg, answer.value.Files())
      modifies this, fs
      ensures answer.None? ==> !ok && State() == old(State())
      ensures checkpoint == if ok then Some(answer.value.rootHash) else old(checkpoint)
      ensures answer.Some? ==> ValidTrace(cfg, old(State()).(tally := NO_TALLY), answer.value, trace)
      ensures answer.Some? ==> State() == After(cfg, old(State()).(tally := NO_TALLY), answer.value, trace)
      ensures forall path :: BelowChild(cfg.exclusions, path) ==> Get(records, path) == Get(old(records), path)
    {
      trace := Trace([], [], [], []);
      if answer.None? {
        return false, trace;
      }
      var diff := answer.value;
      tally := NO_TALLY;
      var plans, needed := PlanFiles(cfg, diff.Files());
      var neededHashes := InAnyOrder(needed);
      var fetched, fetchFailed := FetchChunks(cfg.blob.chunkHashPrefix, neededHashes);
      ghost var fileOuts := AssembleFiles(cfg, diff.Files(), plans, fetched, fetchFailed);
      ghost var deleteOuts := DeleteFiles(cfg, FilesDeletedHere(cfg, diff));
      ghost var linkOuts := MakeLinks(cfg, diff.Links());
      ghost var linkDeleteOuts := DeleteLinks(cfg, LinksDeletedHere(cfg, diff));
      trace := Trace(fileOuts, deleteOuts, linkOuts, linkDeleteOuts);
      forall path | BelowChild(cfg.exclusions, path) ensures Get(records, path) == Get(old(records), path) {
        ChildRecordStays(cfg, old(State()).(tally := NO_TALLY), diff, trace, path);
      }
      var saved: bool := *;
      if saved {
        checkpoint := Some(diff.rootHash);
      }
      ok := saved;
    }
  }

  /** The tree after an attempt to write the file, and what the caller learns of it. */
  ghost predicate Wrote(cfg: Config, before: Tree, after: Tree, e: FileEntry, written: Option<(int, Digest)>, leftover: Option<Node>,
                        bytes: Bytes, mtime: int) {
    if written.None? then after == Put(before, Tmp(cfg, e.path), leftover)
    else
      written.value == (|bytes|, ContentHash(bytes)) &&
      after == (before - {Tmp(cfg, e.path)})[Local(cfg, e.path) := LocalFile(bytes, mtime)]
  }

  lemma {:induction false} WriteIsFileStep(cfg: Config, before: PullState, after: Tree, e: FileEntry, written: Option<(int, Digest)>,
                                           leftover: Option<Node>, bytes: Bytes, mtime: int, statTime: int, hashed: bool, stored: bool)
    requires Wrote(cfg, before.nodes, after, e, written, leftover, bytes, mtime)
    ensures written.None? ==> FileStep(cfg, before, e, FileFailed(leftover)) == Failing(before.(nodes := after))
    ensures written.Some? ==>
              FileStep(cfg, before, e, FilePulled(hashed, bytes, mtime, statTime, stored)) ==
              PullState(after,
                        if stored then before.records[e.path := FileSyncMeta(e.path, written.value.1, written.value.0, statTime, Synced)]
                        else before.records,
                        WithErrorUnless(stored, before.tally.(pulled := before.tally.pulled + 1)))
  {
  }

  lemma {:induction false} SameBut(before: Tree, after: Tree, at: Components)
    requires after - {at} == before - {at}
    ensures after == Put(before, at, Get(after, at))
  {
    var put := Put(before, at, Get(after, at));
    forall k ensures Get(after, k) == Get(put, k) {
      assert k != at ==> Get(after - {at}, k) == Get(before - {at}, k);
    }
    SameGetsSameMap(after, put);
  }

  /** It makes no difference in which answers the chunks came. */
  lemma {:induction false} WrittenAsPlanned(cfg: Config, start: Tree, now: Tree, e: FileEntry, hashed: bool, fetched: map<Digest, Bytes>)
    requires TrueChunks(cfg.blob.chunkHashPrefix, fetched)
    ensures var bytes := Assembled(OpenedFor(cfg, now, e), Reusable(cfg, start, e, hashed), fetched, e.chunkHashes);
            bytes.Some? ==> Written(cfg, start, now, e, hashed) == bytes
  {
    if Assembled(OpenedFor(cfg, now, e), Reusable(cfg, start, e, hashed), fetched, e.chunkHashes).Some? {
      FetchedAlike(cfg.blob.chunkHashPrefix, OpenedFor(cfg, now, e), Reusable(cfg, start, e, hashed), fetched, ServerChunks(cfg, e), e.chunkHashes);
    }
  }

  ghost predicate AllAsWritten(cfg: Config, st: PullState, files: seq<FileEntry>, outs: seq<FileOutcome>)
    requires |files| == |outs|
  {
    forall i :: 0 <= i < |files| ==> AsWritten(cfg, st, files, outs, i)
  }

  lemma {:induction false} OneMoreWritten(cfg: Config, st: PullState, files: seq<FileEntry>, outs: seq<FileOutcome>, e: FileEntry, out: FileOutcome)
    requires |files| == |outs| && AllAsWritten(cfg, st, files, outs)
    requires out.FilePulled? ==> Written(cfg, st.nodes, ApplyFiles(cfg, st, files, outs).nodes, e, out.hashed) == Some(out.bytes)
    ensures AllAsWritten(cfg, st, files + [e], outs + [out])
  {
    var n := |files|;
    forall i | 0 <= i <= n ensures AsWritten(cfg, st, files + [e], outs + [out], i) {
      assert (files + [e])[..i] == files[..i] && (outs + [out])[..i] == outs[..i];
      if i < n {
        assert AsWritten(cfg, st, files, outs, i);
      } else {
        assert files[..n] == files && outs[..n] == outs;
      }
    }
  }

  /** Exclusion and filter decide what is skipped. */
  ghost predicate SkipsAgree(cfg: Config, files: seq<FileEntry>, outs: seq<FileOutcome>)
    requires |files| == |outs|
  {
    forall i :: 0 <= i < |files| ==> (outs[i].FileSkipped? <==> Excluded(cfg, files[i].path) || !Passes(cfg, files[i].path))
  }
}
