/**
 When a pull without failures mirrors the new snapshot: the tree it ends with can be told from the
 diff, the tree before and which of the old files could be hashed, and so can what is lost.
 */
module PullMirror {
  import opened Prelude
  import opened Chunks
  import opened Paths
  import opened Assemble
  import opened MetadataStore
  import opened Pull

  // ---------------------------------------------------------------------------------------
  // The last entry to reach a place
  // ---------------------------------------------------------------------------------------

  /** The file entry is pulled, unless that fails. */
  predicate Wanted(cfg: Config, path: string) { !Excluded(cfg, path) && Passes(cfg, path) }

  /** Pulling the entry writes this place, as its file or as its temporary one. */
  predicate Reaches(cfg: Config, e: FileEntry, at: Components) {
    Wanted(cfg, e.path) && (Local(cfg, e.path) == at || Tmp(cfg, e.path) == at)
  }

  /** The last entry that reaches this place; -1 if there is none. */
  function LastTouch(cfg: Config, items: seq<FileEntry>, at: Components): (k: int)
    ensures -1 <= k < |items| && (k != -1 ==> Reaches(cfg, items[k], at))
  {
    if items == [] then -1
    else
      var n := |items| - 1;
      if Reaches(cfg, items[n], at) then n else LastTouch(cfg, items[..n], at)
  }

  lemma {:induction false} LastTouchIsLast(cfg: Config, items: seq<FileEntry>, at: Components, j: nat)
    requires j < |items| && Reaches(cfg, items[j], at)
    ensures j <= LastTouch(cfg, items, at)
  {
    if j < |items| - 1 {
      LastTouchIsLast(cfg, items[..|items| - 1], at, j);
    }
  }

  /** Pulled if wanted, skipped if not. */
  predicate OkFor(cfg: Config, e: FileEntry, out: FileOutcome) {
    FileOk(out) && (out.FileSkipped? <==> !Wanted(cfg, e.path))
  }

  ghost predicate AllOk(cfg: Config, items: seq<FileEntry>, outs: seq<FileOutcome>)
    requires |items| == |outs|
  {
    forall i :: 0 <= i < |items| ==> OkFor(cfg, items[i], outs[i])
  }

  lemma {:induction false} OkTouches(cfg: Config, e: FileEntry, out: FileOutcome, at: Components)
    requires OkFor(cfg, e, out)
    ensures FileTouch(cfg, e, out, at) ==
            if !Reaches(cfg, e, at) then None
            else if Local(cfg, e.path) == at then Some(Some(LocalFile(out.bytes, out.nodeTime)))
            else Some(None)
  {
  }

  lemma {:induction false} TouchIsLast(cfg: Config, items: seq<FileEntry>, outs: seq<FileOutcome>, at: Components)
    requires |items| == |outs| && AllOk(cfg, items, outs)
    ensures var k := LastTouch(cfg, items, at);
            (k != -1 ==> outs[k].FilePulled?) &&
            FilesTouch(cfg, items, outs, at) ==
            if k == -1 then None
            else if Local(cfg, items[k].path) == at then Some(Some(LocalFile(outs[k].bytes, outs[k].nodeTime)))
            else Some(None)
  {
    if items != [] {
      var n := |items| - 1;
      OkTouches(cfg, items[n], outs[n], at);
      if !Reaches(cfg, items[n], at) {
        TouchIsLast(cfg, items[..n], outs[..n], at);
      }
    }
  }

  // ---------------------------------------------------------------------------------------
  // The tree foretold
  // ---------------------------------------------------------------------------------------

  /** Which of the files pulled had their old file hashed. */
  function HashedIn(outs: seq<FileOutcome>): seq<bool> {
    seq(|outs|, i requires 0 <= i < |outs| => outs[i].FilePulled? && outs[i].hashed)
  }

  function ForecastStep(cfg: Config, start: Tree, now: Tree, e: FileEntry, hashed: bool): Tree {
    var bytes := Written(cfg, start, now, e, hashed);
    if Wanted(cfg, e.path) && bytes.Some? then (now - {Tmp(cfg, e.path)})[Local(cfg, e.path) := LocalFile(bytes.value, 0)] else now
  }

  /** The tree after the first entries, but for the times of its files. */
  function Forecast(cfg: Config, start: Tree, items: seq<FileEntry>, hashed: seq<bool>, n: nat): Tree
    requires n <= |items| == |hashed|
  {
    if n == 0 then start else ForecastStep(cfg, start, Forecast(cfg, start, items, hashed, n - 1), items[n - 1], hashed[n - 1])
  }

  /** What the file of an entry comes out as. */
  function ForecastBytes(cfg: Config, start: Tree, items: seq<FileEntry>, hashed: seq<bool>, k: nat): Option<Bytes>
    requires k < |items| == |hashed|
  {
    Written(cfg, start, Forecast(cfg, start, items, hashed, k), items[k], hashed[k])
  }

  lemma {:induction false} StepAlike(cfg: Config, start: Tree, st: PullState, now: Tree, e: FileEntry, out: FileOutcome)
    requires OkFor(cfg, e, out) && AlikeTrees(st.nodes, now)
    requires out.FilePulled? ==> Written(cfg, start, st.nodes, e, out.hashed) == Some(out.bytes)
    ensures AlikeTrees(FileStep(cfg, st, e, out).nodes, ForecastStep(cfg, start, now, e, out.FilePulled? && out.hashed))
    ensures out.FilePulled? ==> Written(cfg, start, now, e, out.hashed) == Some(out.bytes)
  {
    FollowAlike(st.nodes, now, cfg.links, Local(cfg, e.path), cfg.links.most);
    var a, b := FileStep(cfg, st, e, out).nodes, ForecastStep(cfg, start, now, e, out.FilePulled? && out.hashed);
    forall p ensures Alike(Get(a, p), Get(b, p)) {
      assert Alike(Get(st.nodes, p), Get(now, p));
    }
  }

  /** Where nothing fails, the trees are as foretold. */
  lemma {:induction false} AsForetold(cfg: Config, st: PullState, items: seq<FileEntry>, outs: seq<FileOutcome>, n: nat)
    requires n <= |items| == |outs| && AllOk(cfg, items, outs) && forall i :: 0 <= i < |items| ==> AsWritten(cfg, st, items, outs, i)
    ensures AlikeTrees(TreeAt(cfg, st, items, outs, n), Forecast(cfg, st.nodes, items, HashedIn(outs), n))
  {
    if n == 0 {
      assert items[..0] == [] && outs[..0] == [];
    } else {
      AsForetold(cfg, st, items, outs, n - 1);
      assert AsWritten(cfg, st, items, outs, n - 1) && OkFor(cfg, items[n - 1], outs[n - 1]);
      assert items[..n][..n - 1] == items[..n - 1] && outs[..n][..n - 1] == outs[..n - 1];
      StepAlike(cfg, st.nodes, ApplyFiles(cfg, st, items[..n - 1], outs[..n - 1]), Forecast(cfg, st.nodes, items, HashedIn(outs), n - 1),
                items[n - 1], outs[n - 1]);
    }
  }

  lemma {:induction false} BytesForetold(cfg: Config, st: PullState, items: seq<FileEntry>, outs: seq<FileOutcome>, k: nat)
    requires k < |items| == |outs| && AllOk(cfg, items, outs) && forall i :: 0 <= i < |items| ==> AsWritten(cfg, st, items, outs, i)
    requires outs[k].FilePulled?
    ensures ForecastBytes(cfg, st.nodes, items, HashedIn(outs), k) == Some(outs[k].bytes)
  {
    AsForetold(cfg, st, items, outs, k);
    assert AsWritten(cfg, st, items, outs, k) && OkFor(cfg, items[k], outs[k]);
    StepAlike(cfg, st.nodes, ApplyFiles(cfg, st, items[..k], outs[..k]), Forecast(cfg, st.nodes, items, HashedIn(outs), k), items[k], outs[k]);
  }

  /** The tree after the first file deletions. */
  function Cleared(cfg: Config, nodes: Tree, paths: seq<string>, n: nat): Tree
    requires n <= |paths|
  {
    if n == 0 then nodes
    else
      var now := Cleared(cfg, nodes, paths, n - 1);
      if !Excluded(cfg, paths[n - 1]) && Exists(cfg, now, Local(cfg, paths[n - 1])) then now - {Local(cfg, paths[n - 1])} else now
  }

  /** A file deletion finds something at this place. */
  predicate Clears(cfg: Config, nodes: Tree, paths: seq<string>, at: Components) {
    exists i :: 0 <= i < |paths| && !Excluded(cfg, paths[i]) && Local(cfg, paths[i]) == at && Exists(cfg, Cleared(cfg, nodes, paths, i), at)
  }

  lemma {:induction false} ClearedAlike(cfg: Config, st: PullState, nodes: Tree, paths: seq<string>, outs: seq<DeleteOutcome>, n: nat)
    requires n <= |paths| == |outs| && AlikeTrees(st.nodes, nodes)
    requires forall i :: 0 <= i < |paths| ==> !outs[i].DeleteFailed? && (outs[i].NotOurs? <==> Excluded(cfg, paths[i]))
    ensures AlikeTrees(ApplyFileDeletes(cfg, st, paths[..n], outs[..n]).nodes, Cleared(cfg, nodes, paths, n))
  {
    if n == 0 {
      assert paths[..0] == [] && outs[..0] == [];
    } else {
      ClearedAlike(cfg, st, nodes, paths, outs, n - 1);
      assert paths[..n][..n - 1] == paths[..n - 1] && outs[..n][..n - 1] == outs[..n - 1];
      var before, now := ApplyFileDeletes(cfg, st, paths[..n - 1], outs[..n - 1]).nodes, Cleared(cfg, nodes, paths, n - 1);
      FollowAlike(before, now, cfg.links, Local(cfg, paths[n - 1]), cfg.links.most);
      OneLessAlike(before, now, Local(cfg, paths[n - 1]));
    }
  }

  lemma {:induction false} OneLessAlike(a: Tree, b: Tree, at: Components)
    requires AlikeTrees(a, b)
    ensures AlikeTrees(a - {at}, b - {at})
  {
    forall p ensures Alike(Get(a - {at}, p), Get(b - {at}, p)) {
      assert Alike(Get(a, p), Get(b, p));
    }
  }

  lemma {:induction false} GoneIffClears(cfg: Config, st: PullState, nodes: Tree, paths: seq<string>, outs: seq<DeleteOutcome>, at: Components)
    requires |paths| == |outs| && AlikeTrees(st.nodes, nodes)
    requires forall i :: 0 <= i < |paths| ==> !outs[i].DeleteFailed? && (outs[i].NotOurs? <==> Excluded(cfg, paths[i]))
    ensures GoneAt(cfg, st, paths, outs, at) <==> Clears(cfg, nodes, paths, at)
  {
    forall i | 0 <= i < |paths|
      ensures RemovesAt(cfg, st, paths, outs, at, i) <==>
              !Excluded(cfg, paths[i]) && Local(cfg, paths[i]) == at && Exists(cfg, Cleared(cfg, nodes, paths, i), at)
    {
      ClearedAlike(cfg, st, nodes, paths, outs, i);
      FollowAlike(ApplyFileDeletes(cfg, st, paths[..i], outs[..i]).nodes, Cleared(cfg, nodes, paths, i), cfg.links, at, cfg.links.most);
    }
  }

  // ---------------------------------------------------------------------------------------
  // Any place, when nothing fails
  // ---------------------------------------------------------------------------------------

  predicate LandsAt(cfg: Config, paths: seq<string>, at: Components) {
    exists i :: 0 <= i < |paths| && !Excluded(cfg, paths[i]) && Local(cfg, paths[i]) == at
  }

  /** The last symlink made at this place; -1 if there is none. */
  function LastLink(cfg: Config, links: seq<LinkEntry>, at: Components): (k: int)
    ensures -1 <= k < |links| && (k != -1 ==> !Excluded(cfg, links[k].path) && Local(cfg, links[k].path) == at)
  {
    if links == [] then -1
    else
      var n := |links| - 1;
      if !Excluded(cfg, links[n].path) && Local(cfg, links[n].path) == at then n else LastLink(cfg, links[..n], at)
  }

  lemma {:induction false} LinksTouchIsLast(cfg: Config, links: seq<LinkEntry>, outs: seq<LinkOutcome>, at: Components)
    requires |links| == |outs|
    requires forall i :: 0 <= i < |links| ==> !outs[i].LinkFailed? && (outs[i].LinkSkipped? <==> Excluded(cfg, links[i].path))
    ensures var k := LastLink(cfg, links, at);
            LinksTouch(cfg, links, outs, at) == if k == -1 then None else Some(Some(LocalLink(links[k].target)))
  {
    if links != [] {
      var n := |links| - 1;
      assert !outs[n].LinkFailed?;
      LinksTouchIsLast(cfg, links[..n], outs[..n], at);
    }
  }

  /** What the file phase leaves at this place: the last entry to reach it decides. */
  function FiledNode(cfg: Config, start: Tree, items: seq<FileEntry>, hashed: seq<bool>, at: Components): Option<Node>
    requires |items| == |hashed|
  {
    var k := LastTouch(cfg, items, at);
    if k == -1 then Get(start, at)
    else if Local(cfg, items[k].path) != at || ForecastBytes(cfg, start, items, hashed, k).None? then None
    else Some(LocalFile(ForecastBytes(cfg, start, items, hashed, k).value, 0))
  }

  /**
   What the pull leaves there, but for times: what was asked for last, by symlink deletions, by
   symlinks, by file deletions - which look whether there is anything - or by files.
   */
  function EndNode(cfg: Config, start: Tree, diff: Diff, hashed: seq<bool>, at: Components): Option<Node>
    requires |hashed| == |diff.Files()|
  {
    var l := LastLink(cfg, diff.Links(), at);
    if LandsAt(cfg, LinksDeletedHere(cfg, diff), at) then None
    else if l != -1 then Some(LocalLink(diff.Links()[l].target))
    else if Clears(cfg, Forecast(cfg, start, diff.Files(), hashed, |diff.Files()|), FilesDeletedHere(cfg, diff), at) then None
    else FiledNode(cfg, start, diff.Files(), hashed, at)
  }

  lemma {:induction false} FiledAsForetold(cfg: Config, st: PullState, items: seq<FileEntry>, outs: seq<FileOutcome>, at: Components)
    requires |items| == |outs| && AllOk(cfg, items, outs) && forall i :: 0 <= i < |items| ==> AsWritten(cfg, st, items, outs, i)
    ensures Alike(Touched(FilesTouch(cfg, items, outs, at), Get(st.nodes, at)), FiledNode(cfg, st.nodes, items, HashedIn(outs), at))
  {
    TouchIsLast(cfg, items, outs, at);
    var k := LastTouch(cfg, items, at);
    if k != -1 {
      BytesForetold(cfg, st, items, outs, k);
    }
  }

  lemma {:induction false} EveryEntryOk(cfg: Config, diff: Diff, trace: Trace)
    requires Fits(cfg, diff, trace) && NothingFailed(trace)
    ensures AllOk(cfg, diff.Files(), trace.files)
  {
    forall i | 0 <= i < |diff.Files()| ensures OkFor(cfg, diff.Files()[i], trace.files[i]) {
      assert FileOk(trace.files[i]);
    }
  }

  /**
   A pull without failures, of any diff from any state: every place ends as foretold from the diff,
   the tree before and which old files could be hashed.
   */
  lemma {:induction false} EndsAsForetold(cfg: Config, st: PullState, diff: Diff, trace: Trace, at: Components)
    requires ValidTrace(cfg, st, diff, trace) && After(cfg, st, diff, trace).tally.failed == st.tally.failed
    ensures Alike(Get(After(cfg, st, diff, trace).nodes, at), EndNode(cfg, st.nodes, diff, HashedIn(trace.files), at))
  {
    FailedCountsFailures(cfg, st, diff, trace);
    NodeIs(cfg, st, diff, trace, at);
    EveryEntryOk(cfg, diff, trace);
    FiledAsForetold(cfg, st, diff.Files(), trace.files, at);
    AsForetold(cfg, st, diff.Files(), trace.files, |diff.Files()|);
    assert diff.Files()[..|diff.Files()|] == diff.Files() && trace.files[..|diff.Files()|] == trace.files;
    GoneIffClears(cfg, AfterFiles(cfg, st, diff, trace), Forecast(cfg, st.nodes, diff.Files(), HashedIn(trace.files), |diff.Files()|),
                  FilesDeletedHere(cfg, diff), trace.fileDeletes, at);
    LinksTouchIsLast(cfg, diff.Links(), trace.links, at);
    DeletedIffLands(cfg, LinksDeletedHere(cfg, diff), trace.linkDeletes, at);
  }

  lemma {:induction false} DeletedIffLands(cfg: Config, paths: seq<string>, outs: seq<DeleteOutcome>, at: Components)
    requires |paths| == |outs|
    requires forall i :: 0 <= i < |paths| ==> !outs[i].DeleteFailed? && (outs[i].NotOurs? <==> Excluded(cfg, paths[i]))
    ensures DeletedAt(cfg, paths, outs, at) <==> LandsAt(cfg, paths, at)
  {
    forall i | 0 <= i < |paths| ensures outs[i].Deleted? <==> !Excluded(cfg, paths[i]) {
    }
  }

  /** So it can be told beforehand whether any path - listed once, twice or not at all, landed on or not - will be mirrored. */
  lemma {:induction false} MirroredIffForetold(cfg: Config, snap: Snapshot, st: PullState, diff: Diff, trace: Trace, path: string)
    requires ValidTrace(cfg, st, diff, trace) && After(cfg, st, diff, trace).tally.failed == st.tally.failed
    ensures MirrorsPath(cfg, snap, After(cfg, st, diff, trace), path) <==>
            MirrorsAt(cfg, snap, EndNode(cfg, st.nodes, diff, HashedIn(trace.files), Local(cfg, path)), path)
  {
    EndsAsForetold(cfg, st, diff, trace, Local(cfg, path));
  }

  // ---------------------------------------------------------------------------------------
  // Tracked paths
  // ---------------------------------------------------------------------------------------

  lemma {:induction false} OwnEntryReaches(cfg: Config, diff: Diff, path: string)
    requires Wanted(cfg, path)
    ensures IndexOf(FilePaths(diff.Files()), path) <= LastTouch(cfg, diff.Files(), Local(cfg, path))
  {
    var f := IndexOf(FilePaths(diff.Files()), path);
    if f != -1 {
      assert diff.Files()[f].path == path;
      LastTouchIsLast(cfg, diff.Files(), Local(cfg, path), f);
    }
  }

  lemma {:induction false} LandsIffListed(cfg: Config, paths: seq<string>, path: string)
    requires NoneLandsAt(cfg, paths, path) && !Excluded(cfg, path)
    ensures LandsAt(cfg, paths, Local(cfg, path)) <==> path in paths
  {
  }

  lemma {:induction false} LastLinkIsOwn(cfg: Config, links: seq<LinkEntry>, path: string, at: int)
    requires OnlyAt(LinkPaths(links), path, at) && NoneLandsAt(cfg, LinkPaths(links), path) && !Excluded(cfg, path) && -1 <= at < |links|
    ensures LastLink(cfg, links, Local(cfg, path)) == at
  {
    if links != [] {
      var n := |links| - 1;
      assert LinkPaths(links)[n] == path <==> n == at;
      assert LinkPaths(links[..n]) == LinkPaths(links)[..n];
      if at != n {
        LastLinkIsOwn(cfg, links[..n], path, at);
      }
    } else {
      assert at == -1;
    }
  }

  lemma {:induction false} ClearsOnlyOwn(cfg: Config, nodes: Tree, paths: seq<string>, path: string)
    requires NoneLandsAt(cfg, paths, path)
    ensures path !in paths ==> !Clears(cfg, nodes, paths, Local(cfg, path))
    ensures path in paths && !Excluded(cfg, path) && IsLocalFile(Get(nodes, Local(cfg, path))) ==> Clears(cfg, nodes, paths, Local(cfg, path))
  {
    if path in paths && !Excluded(cfg, path) && IsLocalFile(Get(nodes, Local(cfg, path))) && !Clears(cfg, nodes, paths, Local(cfg, path)) {
      var i :| 0 <= i < |paths| && paths[i] == path;
      StaysUncleared(cfg, nodes, paths, Local(cfg, path), i);
    }
  }

  lemma {:induction false} StaysUncleared(cfg: Config, nodes: Tree, paths: seq<string>, at: Components, n: nat)
    requires n <= |paths| && !Clears(cfg, nodes, paths, at)
    ensures Get(Cleared(cfg, nodes, paths, n), at) == Get(nodes, at)
  {
    if n > 0 {
      StaysUncleared(cfg, nodes, paths, at, n - 1);
    }
  }

  /** Only entries that reach a place change it. */
  lemma {:induction false} ForecastAt(cfg: Config, start: Tree, items: seq<FileEntry>, hashed: seq<bool>, at: Components, n: nat)
    requires n <= |items| == |hashed| && forall i :: 0 <= i < n ==> !Reaches(cfg, items[i], at)
    ensures Get(Forecast(cfg, start, items, hashed, n), at) == Get(start, at)
  {
    if n > 0 {
      ForecastAt(cfg, start, items, hashed, at, n - 1);
    }
  }

  /** Where neither symlinks nor deletions of other paths come along. */
  lemma {:induction false} EndKeptOff(cfg: Config, before: Snapshot, now: Snapshot, start: Tree, diff: Diff, hashed: seq<bool>, path: string)
    requires |hashed| == |diff.Files()| && HonestDiff(before, now, diff) && LinksAndDeletesKeepOff(cfg, diff, path) && !Excluded(cfg, path)
    ensures var l := IndexOf(LinkPaths(diff.Links()), path);
            var at := Local(cfg, path);
            EndNode(cfg, start, diff, hashed, at) ==
            if path in LinksDeletedHere(cfg, diff) then None
            else if l != -1 then Some(LocalLink(diff.Links()[l].target))
            else if Clears(cfg, Forecast(cfg, start, diff.Files(), hashed, |diff.Files()|), FilesDeletedHere(cfg, diff), at) then None
            else FiledNode(cfg, start, diff.Files(), hashed, at)
  {
    LandsIffListed(cfg, LinksDeletedHere(cfg, diff), path);
    IndexIsOnly(LinkPaths(diff.Links()), path);
    LastLinkIsOwn(cfg, diff.Links(), path, IndexOf(LinkPaths(diff.Links()), path));
  }

  lemma {:induction false} UnlistedIsUnchanged(cfg: Config, before: Snapshot, now: Snapshot, diff: Diff, path: string)
    requires HonestDiff(before, now, diff) && IsFile(now, path) && Wanted(cfg, path) && LastTouch(cfg, diff.Files(), Local(cfg, path)) == -1
    ensures Get(before, path) == Get(now, path)
  {
    OwnEntryReaches(cfg, diff, path);
    HonestlyPlaced(cfg, before, now, diff, path);
  }

  lemma {:induction false} FileEnds(cfg: Config, before: Snapshot, now: Snapshot, start: Tree, diff: Diff, hashed: seq<bool>, path: string)
    requires |hashed| == |diff.Files()| && HonestDiff(before, now, diff) && LinksAndDeletesKeepOff(cfg, diff, path) && !Excluded(cfg, path)
    requires IsFile(now, path)
    ensures EndNode(cfg, start, diff, hashed, Local(cfg, path)) ==
            if cfg.deletesLocally && IsLink(before, path) then None else FiledNode(cfg, start, diff.Files(), hashed, Local(cfg, path))
  {
    EndKeptOff(cfg, before, now, start, diff, hashed, path);
    HonestlyPlaced(cfg, before, now, diff, path);
    ClearsOnlyOwn(cfg, Forecast(cfg, start, diff.Files(), hashed, |diff.Files()|), FilesDeletedHere(cfg, diff), path);
  }

  /**
   A tracked file of the new snapshot, after a pull without failures, where other entries may land
   on it or use it as their temporary file: it is mirrored if and only if the last entry of the
   diff to reach it lands there and is foretold to come out as its content, and it did not replace
   a symlink, whose deletion runs last.
   */
  lemma {:induction false} FileMirroredIffLast(cfg: Config, before: Snapshot, now: Snapshot, st: PullState, diff: Diff, trace: Trace, path: string)
    requires Sound(cfg, st, before, now, diff, trace) && After(cfg, st, diff, trace).tally.failed == st.tally.failed
    requires Tracked(cfg, path) && Passes(cfg, path) && IsFile(now, path) && MirrorsPath(cfg, before, st, path)
    requires LinksAndDeletesKeepOff(cfg, diff, path)
    ensures var k := LastTouch(cfg, diff.Files(), Local(cfg, path));
            MirrorsPath(cfg, now, After(cfg, st, diff, trace), path) <==>
            !(cfg.deletesLocally && IsLink(before, path)) &&
            (k == -1 ||
             (Local(cfg, diff.Files()[k].path) == Local(cfg, path) &&
              ForecastBytes(cfg, st.nodes, diff.Files(), HashedIn(trace.files), k) == Some(ContentOf(cfg.blob.chunkHashPrefix, now[path].chunks))))
  {
    MirroredIffForetold(cfg, now, st, diff, trace, path);
    FileEnds(cfg, before, now, st.nodes, diff, HashedIn(trace.files), path);
    if LastTouch(cfg, diff.Files(), Local(cfg, path)) == -1 {
      UnlistedIsUnchanged(cfg, before, now, diff, path);
    }
  }

  /**
   A tracked path that neither snapshot has: it stays empty unless the last entry to reach its
   local file lands there - an entry from outside the base, which the pull takes in all the same.
   */
  lemma {:induction false} AbsentMirroredIffLast(cfg: Config, before: Snapshot, now: Snapshot, st: PullState, diff: Diff, trace: Trace, path: string)
    requires Sound(cfg, st, before, now, diff, trace) && After(cfg, st, diff, trace).tally.failed == st.tally.failed
    requires Tracked(cfg, path) && Passes(cfg, path) && path !in before && path !in now && MirrorsPath(cfg, before, st, path)
    requires LinksAndDeletesKeepOff(cfg, diff, path)
    ensures var k := LastTouch(cfg, diff.Files(), Local(cfg, path));
            MirrorsPath(cfg, now, After(cfg, st, diff, trace), path) <==> k == -1 || Local(cfg, diff.Files()[k].path) != Local(cfg, path)
  {
    MirroredIffForetold(cfg, now, st, diff, trace, path);
    EndKeptOff(cfg, before, now, st.nodes, diff, HashedIn(trace.files), path);
    HonestlyPlaced(cfg, before, now, diff, path);
    ClearsOnlyOwn(cfg, Forecast(cfg, st.nodes, diff.Files(), HashedIn(trace.files), |diff.Files()|), FilesDeletedHere(cfg, diff), path);
    LastComesOut(cfg, st, diff, trace, Local(cfg, path));
  }

  lemma {:induction false} LastComesOut(cfg: Config, st: PullState, diff: Diff, trace: Trace, at: Components)
    requires ValidTrace(cfg, st, diff, trace) && After(cfg, st, diff, trace).tally.failed == st.tally.failed
    ensures var k := LastTouch(cfg, diff.Files(), at); k != -1 ==> ForecastBytes(cfg, st.nodes, diff.Files(), HashedIn(trace.files), k).Some?
  {
    FailedCountsFailures(cfg, st, diff, trace);
    EveryEntryOk(cfg, diff, trace);
    TouchIsLast(cfg, diff.Files(), trace.files, at);
    var k := LastTouch(cfg, diff.Files(), at);
    if k != -1 {
      BytesForetold(cfg, st, diff.Files(), trace.files, k);
    }
  }

  /** An entry pulled after the path's own - any, if the path is not listed - has the path's local file as its temporary one. */
  ghost predicate NameTaken(cfg: Config, diff: Diff, path: string) {
    exists j :: IndexOf(FilePaths(diff.Files()), path) < j < |diff.Files()| && Wanted(cfg, diff.Files()[j].path) &&
                Tmp(cfg, diff.Files()[j].path) == Local(cfg, path)
  }

  /** The chunks that the path's own entry reuses are foretold to be in their places when its turn comes. */
  predicate ForetoldWhole(cfg: Config, start: Tree, diff: Diff, hashed: seq<bool>, path: string)
    requires |hashed| == |diff.Files()|
  {
    var f := IndexOf(FilePaths(diff.Files()), path);
    f != -1 ==> ReusesHold(cfg, start, Forecast(cfg, start, diff.Files(), hashed, f), diff.Files()[f], hashed[f])
  }

  /** What a pull without failures does not get right at this path. */
  ghost predicate Lost(cfg: Config, start: Tree, before: Snapshot, now: Snapshot, diff: Diff, hashed: seq<bool>, path: string)
    requires |hashed| == |diff.Files()|
  {
    if IsLink(now, path) then Get(before, path) == Get(now, path) && NameTaken(cfg, diff, path)
    else if IsFile(now, path) then
      Passes(cfg, path) &&
      (NameTaken(cfg, diff, path) || (IsLink(before, path) && (cfg.deletesLocally || !ForetoldWhole(cfg, start, diff, hashed, path))))
    else Passes(cfg, path) && path in before && !cfg.deletesLocally && !NameTaken(cfg, diff, path)
  }

  /** Where nobody else lands, the last touch is the path's own, unless its name is taken. */
  lemma {:induction false} LastIsOwnUnlessTaken(cfg: Config, diff: Diff, path: string)
    requires Distinct(FilePaths(diff.Files())) && NoneLandsAt(cfg, FilePaths(diff.Files()), path)
    requires path in FilePaths(diff.Files()) ==> Wanted(cfg, path)
    ensures var k := LastTouch(cfg, diff.Files(), Local(cfg, path));
            if NameTaken(cfg, diff, path) then k != -1 && Local(cfg, diff.Files()[k].path) != Local(cfg, path)
            else k == IndexOf(FilePaths(diff.Files()), path)
  {
    var at := Local(cfg, path);
    var f := IndexOf(FilePaths(diff.Files()), path);
    var k := LastTouch(cfg, diff.Files(), at);
    IndexIsOnly(FilePaths(diff.Files()), path);
    if Wanted(cfg, path) {
      OwnEntryReaches(cfg, diff, path);
    }
    if k != -1 {
      assert FilePaths(diff.Files())[k] == path <==> k == f;
      TmpPathDiffers(Local(cfg, diff.Files()[k].path));
    }
    if NameTaken(cfg, diff, path) {
      var j :| f < j < |diff.Files()| && Wanted(cfg, diff.Files()[j].path) && Tmp(cfg, diff.Files()[j].path) == at;
      LastTouchIsLast(cfg, diff.Files(), at, j);
    }
  }

  /** The path's own file comes out whole, unless it replaces a symlink and the file behind it has changed. */
  lemma {:induction false} OwnForetold(cfg: Config, before: Snapshot, st: PullState, diff: Diff, trace: Trace, path: string, f: nat)
    requires ValidTrace(cfg, st, diff, trace) && NothingFailed(trace) && Distinct(FilePaths(diff.Files())) && Wanted(cfg, path)
    requires NoneLandsAt(cfg, FilePaths(diff.Files()), path) && MirrorsPath(cfg, before, st, path) && f == IndexOf(FilePaths(diff.Files()), path)
    ensures var bytes := ForecastBytes(cfg, st.nodes, diff.Files(), HashedIn(trace.files), f);
            bytes.Some? &&
            (bytes.value == Content(cfg, diff.Files()[f]) <==> (IsLink(before, path) ==> ForetoldWhole(cfg, st.nodes, diff, HashedIn(trace.files), path)))
  {
    EveryEntryOk(cfg, diff, trace);
    assert OkFor(cfg, diff.Files()[f], trace.files[f]);
    BytesForetold(cfg, st, diff.Files(), trace.files, f);
    WrittenWholeIff(cfg, st.nodes, Forecast(cfg, st.nodes, diff.Files(), HashedIn(trace.files), f), diff.Files()[f], HashedIn(trace.files)[f]);
    if !IsLink(before, path) {
      assert forall j :: 0 <= j < f ==> FileOk(trace.files[j]);
      PulledWholeIff(cfg, st, diff, trace, f);
      OwnFileIsWhole(cfg, st, diff, trace, path, f);
    }
  }

  /** The file phase of a pull without failures, where nobody else lands. */
  lemma {:induction false} FiledOk(cfg: Config, start: Tree, diff: Diff, hashed: seq<bool>, path: string)
    requires |hashed| == |diff.Files()| && Distinct(FilePaths(diff.Files())) && NoneLandsAt(cfg, FilePaths(diff.Files()), path)
    requires path in FilePaths(diff.Files()) ==> Wanted(cfg, path)
    ensures var f := IndexOf(FilePaths(diff.Files()), path);
            FiledNode(cfg, start, diff.Files(), hashed, Local(cfg, path)) ==
            if NameTaken(cfg, diff, path) then None
            else if f == -1 then Get(start, Local(cfg, path))
            else
              var bytes := ForecastBytes(cfg, start, diff.Files(), hashed, f);
              if bytes.Some? then Some(LocalFile(bytes.value, 0)) else None
  {
    LastIsOwnUnlessTaken(cfg, diff, path);
    var f := IndexOf(FilePaths(diff.Files()), path);
    assert f != -1 ==> diff.Files()[f].path == path;
  }

  /** From the node as the file phase leaves it. */
  lemma {:induction false} EndsFrom(cfg: Config, start: Tree, before: Snapshot, now: Snapshot, diff: Diff, hashed: seq<bool>, path: string,
                                    filed: Option<Node>, clears: bool, end: Option<Node>)
    requires |hashed| == |diff.Files()| && Placed(cfg, before, now, diff, path) && (IsFile(now, path) ==> Passes(cfg, path))
    requires MirrorsAt(cfg, before, Get(start, Local(cfg, path)), path)
    requires var f := IndexOf(FilePaths(diff.Files()), path);
             if NameTaken(cfg, diff, path) then filed == None
             else if f == -1 then filed == Get(start, Local(cfg, path))
             else
               IsLocalFile(filed) &&
               (filed.value.bytes == Content(cfg, diff.Files()[f]) <==> (IsLink(before, path) ==> ForetoldWhole(cfg, start, diff, hashed, path)))
    requires clears ==> path in FilesDeletedHere(cfg, diff)
    requires path in FilesDeletedHere(cfg, diff) && IsLocalFile(filed) ==> clears
    requires var l := IndexOf(LinkPaths(diff.Links()), path);
             end == if path in LinksDeletedHere(cfg, diff) then None
                    else if l != -1 then Some(LocalLink(diff.Links()[l].target))
                    else if clears then None else filed
    ensures MirrorsAt(cfg, now, end, path) <==> !Lost(cfg, start, before, now, diff, hashed, path)
  {
    if IsLink(now, path) {
    } else if IsFile(now, path) {
    }
  }

  /**
   With `files_failed = 0`, at every tracked path that was mirrored and that no other path of the
   diff lands on, the new snapshot is mirrored if and only if the path is not lost: a symlink that
   became a file goes with the deletion of the symlink, which runs last, or is put together from
   what the file behind the symlink has become; a file or an untouched symlink goes if an entry
   pulled later has its name as temporary name; and without propagation of deletions what is gone
   on the server stays.
   */
  lemma {:induction false} PullKeepsMirrorIff(cfg: Config, before: Snapshot, now: Snapshot, st: PullState, diff: Diff, trace: Trace, path: string)
    requires Sound(cfg, st, before, now, diff, trace) && After(cfg, st, diff, trace).tally.failed == st.tally.failed
    requires Tracked(cfg, path) && Alone(cfg, diff, path) && MirrorsPath(cfg, before, st, path)
    ensures MirrorsPath(cfg, now, After(cfg, st, diff, trace), path) <==>
            !Lost(cfg, st.nodes, before, now, diff, HashedIn(trace.files), path)
  {
    if !IsFile(now, path) || Passes(cfg, path) {
      var hashed, at := HashedIn(trace.files), Local(cfg, path);
      var forecast := Forecast(cfg, st.nodes, diff.Files(), hashed, |diff.Files()|);
      FailedCountsFailures(cfg, st, diff, trace);
      MirroredIffForetold(cfg, now, st, diff, trace, path);
      EndKeptOff(cfg, before, now, st.nodes, diff, hashed, path);
      HonestlyPlaced(cfg, before, now, diff, path);
      FiledOk(cfg, st.nodes, diff, hashed, path);
      var f := IndexOf(FilePaths(diff.Files()), path);
      if f != -1 {
        OwnForetold(cfg, before, st, diff, trace, path, f);
      }
      ClearsOnlyOwn(cfg, forecast, FilesDeletedHere(cfg, diff), path);
      ForecastIsFiled(cfg, st, diff, trace, at);
      EndsFrom(cfg, st.nodes, before, now, diff, hashed, path, FiledNode(cfg, st.nodes, diff.Files(), hashed, at),
               Clears(cfg, forecast, FilesDeletedHere(cfg, diff), at), EndNode(cfg, st.nodes, diff, hashed, at));
    }
  }

  /** The tree foretold at one place. */
  lemma {:induction false} ForecastIsFiled(cfg: Config, st: PullState, diff: Diff, trace: Trace, at: Components)
    requires ValidTrace(cfg, st, diff, trace) && NothingFailed(trace)
    ensures Alike(Get(Forecast(cfg, st.nodes, diff.Files(), HashedIn(trace.files), |diff.Files()|), at),
                  FiledNode(cfg, st.nodes, diff.Files(), HashedIn(trace.files), at))
  {
    EveryEntryOk(cfg, diff, trace);
    AsForetold(cfg, st, diff.Files(), trace.files, |diff.Files()|);
    assert diff.Files()[..|diff.Files()|] == diff.Files() && trace.files[..|diff.Files()|] == trace.files;
    FilesNodeAt(cfg, st, diff.Files(), trace.files, at);
    FiledAsForetold(cfg, st, diff.Files(), trace.files, at);
    assert Alike(Get(AfterFiles(cfg, st, diff, trace).nodes, at), Get(Forecast(cfg, st.nodes, diff.Files(), HashedIn(trace.files), |diff.Files()|), at));
  }

  // ---------------------------------------------------------------------------------------
  // Diffs where it goes wrong
  // ---------------------------------------------------------------------------------------

  /** No filter, no child relationship. */
  ghost predicate TakesAll(cfg: Config) {
    cfg.exclusions == [] && forall name :: cfg.matchesFilter(name)
  }

  function Added(files: seq<FileEntry>): Diff { Diff("root", files, [], [], [], [], []) }

  function BothFiles(a: FileEntry, b: FileEntry): Snapshot {
    map[a.path := RemoteFile(a.chunkHashes), b.path := RemoteFile(b.chunkHashes)]
  }

  lemma {:induction false} BothAdded(a: FileEntry, b: FileEntry)
    requires a.path != b.path
    ensures HonestDiff(map[], BothFiles(a, b), Added([a, b]))
  {
    TwoEntries(a, b);
  }

  lemma {:induction false} TwoEntries(a: FileEntry, b: FileEntry)
    requires a.path != b.path
    ensures var diff := Added([a, b]);
            diff.Files() == [a, b] && diff.Links() == [] && FilePaths(diff.Files()) == [a.path, b.path] && LinkPaths(diff.Links()) == [] &&
            IndexOf(FilePaths(diff.Files()), a.path) == 0 && IndexOf(FilePaths(diff.Files()), b.path) == 1
  {
    assert Added([a, b]).Files() == [a, b];
    assert FilePaths([a, b]) == [a.path, b.path];
    assert [a.path, b.path][..1] == [a.path];
  }

  lemma {:induction false} AloneOfTwo(cfg: Config, a: FileEntry, b: FileEntry)
    requires a.path != b.path && Local(cfg, a.path) != Local(cfg, b.path)
    ensures Alone(cfg, Added([a, b]), a.path) && Alone(cfg, Added([a, b]), b.path)
  {
    TwoEntries(a, b);
  }

  /** Of two entries, the one whose name the other uses: taken exactly if it comes first. */
  lemma {:induction false} TakenIfFirst(cfg: Config, kept: FileEntry, other: FileEntry)
    requires Wanted(cfg, other.path) && kept.path != other.path && Tmp(cfg, other.path) == Local(cfg, kept.path)
    ensures NameTaken(cfg, Added([kept, other]), kept.path) && !NameTaken(cfg, Added([other, kept]), kept.path)
  {
    TwoEntries(kept, other);
    TwoEntries(other, kept);
    assert Added([kept, other]).Files()[1] == other;
  }

  lemma {:induction false} NamesOfA(cfg: Config)
    ensures var kept := ComputeRemotePath(["a" + TMP_SUFFIX], cfg.remoteBase);
            var other := ComputeRemotePath(["a"], cfg.remoteBase);
            kept != other && Local(cfg, kept) == ["a" + TMP_SUFFIX] && Local(cfg, other) == ["a"] &&
            Tmp(cfg, other) == Local(cfg, kept) && Tmp(cfg, kept) != Local(cfg, other) &&
            Canonical(kept, cfg.remoteBase)
  {
    LocalOfRemote(["a" + TMP_SUFFIX], cfg.remoteBase);
    LocalOfRemote(["a"], cfg.remoteBase);
    RemoteOfLocalIffCanonical(ComputeRemotePath(["a" + TMP_SUFFIX], cfg.remoteBase), cfg.remoteBase);
    assert ["a"][..0] == [] && [] + ["a" + TMP_SUFFIX] == ["a" + TMP_SUFFIX];
    assert |"a" + TMP_SUFFIX + TMP_SUFFIX| > |"a"|;
    assert Tmp(cfg, ComputeRemotePath(["a" + TMP_SUFFIX], cfg.remoteBase))[0] == "a" + TMP_SUFFIX + TMP_SUFFIX;
  }

  /** A new file that nobody else lands on. */
  lemma {:induction false} NewFileMirroredIff(cfg: Config, now: Snapshot, st: PullState, diff: Diff, trace: Trace, path: string)
    requires Sound(cfg, st, map[], now, diff, trace) && After(cfg, st, diff, trace).tally.failed == st.tally.failed
    requires Tracked(cfg, path) && Passes(cfg, path) && Alone(cfg, diff, path) && IsFile(now, path) && Local(cfg, path) !in st.nodes
    ensures MirrorsPath(cfg, now, After(cfg, st, diff, trace), path) <==> !NameTaken(cfg, diff, path)
  {
    PullKeepsMirrorIff(cfg, map[], now, st, diff, trace, path);
  }

  lemma {:induction false} FirstIsLost(cfg: Config, st: PullState, kept: FileEntry, other: FileEntry, trace: Trace)
    requires TakesAll(cfg) && st.nodes == map[] && Tracked(cfg, kept.path) && Wanted(cfg, other.path)
    requires kept.path != other.path && Local(cfg, kept.path) != Local(cfg, other.path) && Tmp(cfg, other.path) == Local(cfg, kept.path)
    requires ValidTrace(cfg, st, Added([kept, other]), trace) && After(cfg, st, Added([kept, other]), trace).tally.failed == st.tally.failed
    ensures HonestDiff(map[], BothFiles(kept, other), Added([kept, other]))
    ensures !MirrorsPath(cfg, BothFiles(kept, other), After(cfg, st, Added([kept, other]), trace), kept.path)
  {
    BothAdded(kept, other);
    TakenIfFirst(cfg, kept, other);
    AloneOfTwo(cfg, kept, other);
    NewFileMirroredIff(cfg, BothFiles(kept, other), st, Added([kept, other]), trace, kept.path);
  }

  lemma {:induction false} LastIsKept(cfg: Config, st: PullState, kept: FileEntry, other: FileEntry, trace: Trace)
    requires TakesAll(cfg) && st.nodes == map[] && Tracked(cfg, kept.path) && Wanted(cfg, other.path)
    requires kept.path != other.path && Local(cfg, kept.path) != Local(cfg, other.path) && Tmp(cfg, other.path) == Local(cfg, kept.path)
    requires ValidTrace(cfg, st, Added([other, kept]), trace) && After(cfg, st, Added([other, kept]), trace).tally.failed == st.tally.failed
    ensures HonestDiff(map[], BothFiles(other, kept), Added([other, kept]))
    ensures MirrorsPath(cfg, BothFiles(other, kept), After(cfg, st, Added([other, kept]), trace), kept.path)
  {
    BothAdded(other, kept);
    TakenIfFirst(cfg, kept, other);
    AloneOfTwo(cfg, other, kept);
    NewFileMirroredIff(cfg, BothFiles(other, kept), st, Added([other, kept]), trace, kept.path);
  }

  /** Two new files, `a` and one named like the temporary file of `a`. */
  predicate TmpNamed(cfg: Config, kept: FileEntry, other: FileEntry) {
    kept.path == ComputeRemotePath(["a" + TMP_SUFFIX], cfg.remoteBase) && other.path == ComputeRemotePath(["a"], cfg.remoteBase)
  }

  /** If `a` is listed later, its rename takes the other file away, though nothing failed and both were pulled. */
  lemma {:induction false} TemporaryNameLosesFile(cfg: Config, st: PullState, kept: FileEntry, other: FileEntry, trace: Trace)
    requires TakesAll(cfg) && st.nodes == map[] && TmpNamed(cfg, kept, other)
    requires ValidTrace(cfg, st, Added([kept, other]), trace) && After(cfg, st, Added([kept, other]), trace).tally.failed == st.tally.failed
    ensures HonestDiff(map[], BothFiles(kept, other), Added([kept, other]))
    ensures !MirrorsPath(cfg, BothFiles(kept, other), After(cfg, st, Added([kept, other]), trace), kept.path)
  {
    NamesOfA(cfg);
    FirstIsLost(cfg, st, kept, other, trace);
  }

  /** In the opposite order it is kept. */
  lemma {:induction false} OppositeOrderKeepsFile(cfg: Config, st: PullState, kept: FileEntry, other: FileEntry, trace: Trace)
    requires TakesAll(cfg) && st.nodes == map[] && TmpNamed(cfg, kept, other)
    requires ValidTrace(cfg, st, Added([other, kept]), trace) && After(cfg, st, Added([other, kept]), trace).tally.failed == st.tally.failed
    ensures HonestDiff(map[], BothFiles(other, kept), Added([other, kept]))
    ensures MirrorsPath(cfg, BothFiles(other, kept), After(cfg, st, Added([other, kept]), trace), kept.path)
  {
    NamesOfA(cfg);
    LastIsKept(cfg, st, kept, other, trace);
  }

  lemma {:induction false} OneAdded(before: Snapshot, e: FileEntry)
    requires e.path !in before
    ensures HonestDiff(before, before[e.path := RemoteFile(e.chunkHashes)], Added([e]))
    ensures Added([e]).Files() == [e] && Added([e]).Links() == []
  {
    assert Added([e]).Files() == [e] && FilePaths([e]) == [e.path] && LinkPaths([]) == [];
  }

  /** The one entry of a diff is pulled whole. */
  lemma {:induction false} OnlyEntryIsWhole(cfg: Config, st: PullState, e: FileEntry, trace: Trace, at: Components)
    requires ValidTrace(cfg, st, Added([e]), trace) && NothingFailed(trace) && Wanted(cfg, e.path)
    requires at == Local(cfg, e.path)
    ensures LastTouch(cfg, [e], at) == 0 && ForecastBytes(cfg, st.nodes, [e], HashedIn(trace.files), 0) == Some(Content(cfg, e))
  {
    assert Added([e]).Files() == [e];
    EveryEntryOk(cfg, Added([e]), trace);
    assert OkFor(cfg, e, trace.files[0]);
    BytesForetold(cfg, st, [e], trace.files, 0);
    PulledWholeIff(cfg, st, Added([e]), trace, 0);
    assert trace.files[..0] == [];
  }

  /** One new file that lands on the file of another path, which did not change. */
  lemma {:induction false} OneLandsOn(cfg: Config, st: PullState, path: string, own: seq<Digest>, e: FileEntry, trace: Trace)
    requires TakesAll(cfg) && Tracked(cfg, path) && e.path != path && Local(cfg, e.path) == Local(cfg, path)
    requires MirrorsPath(cfg, map[path := RemoteFile(own)], st, path)
    requires ValidTrace(cfg, st, Added([e]), trace) && After(cfg, st, Added([e]), trace).tally.failed == st.tally.failed
    ensures var before := map[path := RemoteFile(own)];
            var now := before[e.path := RemoteFile(e.chunkHashes)];
            HonestDiff(before, now, Added([e])) &&
            (MirrorsPath(cfg, now, After(cfg, st, Added([e]), trace), path) <==> Content(cfg, e) == ContentOf(cfg.blob.chunkHashPrefix, own))
  {
    var before := map[path := RemoteFile(own)];
    OneAdded(before, e);
    FailedCountsFailures(cfg, st, Added([e]), trace);
    OnlyEntryIsWhole(cfg, st, e, trace, Local(cfg, path));
    FileMirroredIffLast(cfg, before, before[e.path := RemoteFile(e.chunkHashes)], st, Added([e]), trace, path);
  }

  /**
   A folder beside the base whose name begins with the base's name: its new file lands on a file
   of the relationship that did not change, and nothing fails. The mirror then holds only if the
   two contents are the same.
   */
  lemma {:induction false} ForeignFileTakesOver(cfg: Config, st: PullState, own: seq<Digest>, foreign: seq<Digest>, trace: Trace)
    requires TakesAll(cfg) && cfg.remoteBase == "/docs/"
    requires var before := map["/docs/2/x" := RemoteFile(own)]; MirrorsPath(cfg, before, st, "/docs/2/x")
    requires var diff := Added([FileEntry("/docs2/x", foreign)]);
             ValidTrace(cfg, st, diff, trace) && After(cfg, st, diff, trace).tally.failed == st.tally.failed
    ensures var before := map["/docs/2/x" := RemoteFile(own)];
            var now := before["/docs2/x" := RemoteFile(foreign)];
            var diff := Added([FileEntry("/docs2/x", foreign)]);
            HonestDiff(before, now, diff) && Tracked(cfg, "/docs/2/x") &&
            (MirrorsPath(cfg, now, After(cfg, st, diff, trace), "/docs/2/x") <==>
             ContentOf(cfg.blob.chunkHashPrefix, foreign) == ContentOf(cfg.blob.chunkHashPrefix, own))
  {
    ForeignPathCollides();
    assert "/docs2/x"[5] != "/docs/2/x"[5];
    OneLandsOn(cfg, st, "/docs/2/x", own, FileEntry("/docs2/x", foreign), trace);
  }

  // ---------------------------------------------------------------------------------------
  // Files put together wrongly
  // ---------------------------------------------------------------------------------------

  function HashOf(cfg: Config, b: byte): Digest {
    ChunkHash(cfg.blob.chunkHashPrefix, [b])
  }

  lemma {:induction false} HashesDiffer(cfg: Config)
    ensures HashOf(cfg, 1) != HashOf(cfg, 2) && HashOf(cfg, 1) != HashOf(cfg, 3)
    ensures ContentOf(cfg.blob.chunkHashPrefix, [HashOf(cfg, 1)]) == [1]
    ensures ContentOf(cfg.blob.chunkHashPrefix, [HashOf(cfg, 1), HashOf(cfg, 3)]) == [1, 3]
  {
    var prefix := cfg.blob.chunkHashPrefix;
    ChunkBytesOfHash(prefix, [1]);
    ChunkBytesOfHash(prefix, [2]);
    ChunkBytesOfHash(prefix, [3]);
    ContentOfSnoc(prefix, [], HashOf(cfg, 1));
    assert [] + [HashOf(cfg, 1)] == [HashOf(cfg, 1)] && BytesOfAll(prefix, []) == [];
    ContentOfSnoc(prefix, [HashOf(cfg, 1)], HashOf(cfg, 3));
    assert [HashOf(cfg, 1)] + [HashOf(cfg, 3)] == [HashOf(cfg, 1), HashOf(cfg, 3)];
  }

  function ByteTwo(cfg: Config, path: string): FileEntry {
    FileEntry(path, [HashOf(cfg, 2)])
  }

  function BytesOneAndThree(cfg: Config, path: string): FileEntry {
    FileEntry(path, [HashOf(cfg, 1), HashOf(cfg, 3)])
  }

  /** One file becomes the byte 2, and then another, so far the byte 1, the bytes 1 and 3. */
  predicate TwoChanges(cfg: Config, diff: Diff, first: string, second: string) {
    diff.Files() == [ByteTwo(cfg, first), BytesOneAndThree(cfg, second)] &&
    diff.Links() == [] && diff.filesDeleted == [] && diff.linksDeleted == []
  }

  /** Both are pulled and recorded, the second as the bytes 2 and 3. */
  const STALE := Trace([FilePulled(true, [2], 0, 0, true), FilePulled(true, [2, 3], 0, 0, true)], [], [], [])

  /** An honest diff is pulled without a failure, and the second file is neither what the server has nor what its record says it has. */
  ghost predicate EndsWrong(cfg: Config, st: PullState, before: Snapshot, diff: Diff, first: string, second: string) {
    var now := BothFiles(ByteTwo(cfg, first), BytesOneAndThree(cfg, second));
    Sound(cfg, st, before, now, diff, STALE) && After(cfg, st, diff, STALE).tally.failed == st.tally.failed &&
    !MirrorsPath(cfg, now, After(cfg, st, diff, STALE), second) &&
    Get(After(cfg, st, diff, STALE).records, second) == Some(FileSyncMeta(second, ContentHash([2, 3]), 2, 0, Synced))
  }

  lemma {:induction false} OneByteIsReused(cfg: Config, start: Tree, e: FileEntry)
    requires cfg.blob.chunkSize == 1 && OpenedFor(cfg, start, e) == Some([1])
    ensures Reusable(cfg, start, e, true) == map[HashOf(cfg, 1) := (0, 1)]
  {
    var prefix: Bytes, bytes: Bytes := cfg.blob.chunkHashPrefix, [1];
    assert bytes[0..1] == bytes && PlacesFrom(prefix, bytes, 1, 1) == map[];
    assert PlacesFrom(prefix, bytes, 0, 1) == map[ChunkHash(prefix, bytes) := (0, 1)] + map[];
  }

  lemma {:induction false} TwoPieces(now: Option<Bytes>, localChunks: LocalChunks, fetched: map<Digest, Bytes>, g: Digest, h: Digest)
    ensures Assembled(now, localChunks, fetched, [g]) == Piece(now, localChunks, fetched, g)
    ensures var a, b := Piece(now, localChunks, fetched, g), Piece(now, localChunks, fetched, h);
            Assembled(now, localChunks, fetched, [g, h]) == if a.Some? && b.Some? then Some(a.value + b.value) else None
  {
    assert [g][..0] == [] && [g, h][..1] == [g];
    var a := Piece(now, localChunks, fetched, g);
    assert a.Some? ==> [] + a.value == a.value;
  }

  lemma {:induction false} FetchedWhole(cfg: Config, start: Tree, now: Tree, path: string)
    requires cfg.blob.chunkSize == 1 && OpenedFor(cfg, start, ByteTwo(cfg, path)) == Some([1])
    ensures Written(cfg, start, now, ByteTwo(cfg, path), true) == Some([2])
  {
    var e := ByteTwo(cfg, path);
    OneByteIsReused(cfg, start, e);
    HashesDiffer(cfg);
    ChunkBytesOfHash(cfg.blob.chunkHashPrefix, [2]);
    assert e.chunkHashes[0] in ServerChunks(cfg, e);
    TwoPieces(OpenedFor(cfg, now, e), Reusable(cfg, start, e, true), ServerChunks(cfg, e), HashOf(cfg, 2), HashOf(cfg, 2));
  }

  lemma {:induction false} ReusedStale(cfg: Config, start: Tree, now: Tree, path: string)
    requires var e := BytesOneAndThree(cfg, path);
             cfg.blob.chunkSize == 1 && OpenedFor(cfg, start, e) == Some([1]) && OpenedFor(cfg, now, e) == Some([2])
    ensures Written(cfg, start, now, BytesOneAndThree(cfg, path), true) == Some([2, 3])
  {
    var e := BytesOneAndThree(cfg, path);
    var source: Option<Bytes> := OpenedFor(cfg, now, e);
    OneByteIsReused(cfg, start, e);
    HashesDiffer(cfg);
    ChunkBytesOfHash(cfg.blob.chunkHashPrefix, [3]);
    assert e.chunkHashes[1] in ServerChunks(cfg, e);
    TwoPieces(source, Reusable(cfg, start, e, true), ServerChunks(cfg, e), HashOf(cfg, 1), HashOf(cfg, 3));
    assert source.value[0..1] == [2] && source.value[0..1] + [3] == [2, 3];
  }

  /** The tree after the first change. */
  function FirstChanged(cfg: Config, start: Tree, first: string): Tree {
    (start - {Tmp(cfg, first)})[Local(cfg, first) := LocalFile([2], 0)]
  }

  lemma {:induction false} AfterTwo(cfg: Config, st: PullState, diff: Diff, trace: Trace, a: FileEntry, b: FileEntry)
    requires Fits(cfg, diff, trace) && diff.Files() == [a, b] && diff.Links() == [] && diff.filesDeleted == [] && diff.linksDeleted == []
    ensures var middle := FileStep(cfg, st, a, trace.files[0]);
            TreeAt(cfg, st, [a, b], trace.files, 0) == st.nodes && TreeAt(cfg, st, [a, b], trace.files, 1) == middle.nodes &&
            After(cfg, st, diff, trace) == FileStep(cfg, middle, b, trace.files[1])
  {
    var outs := trace.files;
    assert [a, b][..1] == [a] && outs[..1] == [outs[0]] && [a][..0] == [] && [outs[0]][..0] == [];
    assert [a, b][..0] == [] && outs[..0] == [];
    assert ApplyFiles(cfg, st, [a], [outs[0]]) == FileStep(cfg, st, a, outs[0]);
  }

  lemma {:induction false} StaleIsPossible(cfg: Config, st: PullState, diff: Diff, first: string, second: string)
    requires TakesAll(cfg) && cfg.blob.chunkSize == 1 && TwoChanges(cfg, diff, first, second)
    requires OpenedIn(st.nodes, cfg.links, Local(cfg, first)) == OpenedIn(st.nodes, cfg.links, Local(cfg, second)) == Some([1])
    requires OpenedIn(FirstChanged(cfg, st.nodes, first), cfg.links, Local(cfg, second)) == Some([2])
    ensures ValidTrace(cfg, st, diff, STALE)
  {
    StaleFits(cfg, diff, first, second);
    FetchedWhole(cfg, st.nodes, st.nodes, first);
    ReusedStale(cfg, st.nodes, FirstChanged(cfg, st.nodes, first), second);
    AfterTwo(cfg, st, diff, STALE, diff.Files()[0], diff.Files()[1]);
    assert AsWritten(cfg, st, diff.Files(), STALE.files, 0) && AsWritten(cfg, st, diff.Files(), STALE.files, 1);
  }

  lemma {:induction false} StaleEnds(cfg: Config, st: PullState, diff: Diff, first: string, second: string)
    requires Fits(cfg, diff, STALE) && TwoChanges(cfg, diff, first, second)
    ensures var after := After(cfg, st, diff, STALE);
            after.tally.failed == st.tally.failed && Get(after.nodes, Local(cfg, second)) == Some(LocalFile([2, 3], 0)) &&
            Get(after.records, second) == Some(FileSyncMeta(second, ContentHash([2, 3]), 2, 0, Synced))
  {
    AfterTwo(cfg, st, diff, STALE, diff.Files()[0], diff.Files()[1]);
  }

  lemma {:induction false} StaleIsNoMirror(cfg: Config, st: PullState, first: string, second: string)
    requires TakesAll(cfg) && Get(st.nodes, Local(cfg, second)) == Some(LocalFile([2, 3], 0))
    ensures !MirrorsPath(cfg, BothFiles(ByteTwo(cfg, first), BytesOneAndThree(cfg, second)), st, second)
  {
    HashesDiffer(cfg);
    var wrong: Bytes, right: Bytes := [2, 3], [1, 3];
    assert wrong[0] != right[0];
  }

  /** Whatever makes the second file read what the first has become. */
  lemma {:induction false} ComesOutWrong(cfg: Config, st: PullState, before: Snapshot, diff: Diff, first: string, second: string)
    requires TakesAll(cfg) && cfg.blob.chunkSize == 1 && TwoChanges(cfg, diff, first, second)
    requires HonestDiff(before, BothFiles(ByteTwo(cfg, first), BytesOneAndThree(cfg, second)), diff)
    requires OpenedIn(st.nodes, cfg.links, Local(cfg, first)) == OpenedIn(st.nodes, cfg.links, Local(cfg, second)) == Some([1])
    requires OpenedIn(FirstChanged(cfg, st.nodes, first), cfg.links, Local(cfg, second)) == Some([2])
    ensures EndsWrong(cfg, st, before, diff, first, second)
  {
    StaleIsPossible(cfg, st, diff, first, second);
    StaleEnds(cfg, st, diff, first, second);
    StaleIsNoMirror(cfg, After(cfg, st, diff, STALE), first, second);
  }

  lemma {:induction false} StaleFits(cfg: Config, diff: Diff, first: string, second: string)
    requires TakesAll(cfg) && TwoChanges(cfg, diff, first, second)
    ensures Fits(cfg, diff, STALE)
  {
  }

  lemma {:induction false} HonestOnTwo(cfg: Config, before: Snapshot, diff: Diff, first: string, second: string)
    requires first != second && TwoChanges(cfg, diff, first, second)
    requires forall p :: p in before ==> (p == first || p == second) && before[p].RemoteFile?
    requires first in before ==> before[first].chunks == [HashOf(cfg, 1)]
    requires second in before ==> before[second].chunks != [HashOf(cfg, 1), HashOf(cfg, 3)]
    ensures HonestDiff(before, BothFiles(ByteTwo(cfg, first), BytesOneAndThree(cfg, second)), diff)
  {
    HashesDiffer(cfg);
    assert FilePaths(diff.Files()) == [first, second] && LinkPaths([]) == [];
    assert [HashOf(cfg, 1)][0] != [HashOf(cfg, 2)][0];
  }

  /** A folder beside the base, whose file lands on the file of the relationship and is listed before it. */
  lemma {:induction false} ForeignFileIsReused(cfg: Config, st: PullState, foreign: string, own: string, time: int)
    requires TakesAll(cfg) && cfg.remoteBase == "/docs/" && foreign == "/docs2/x" && own == "/docs/2/x" && cfg.blob.chunkSize == 1
    requires Get(st.nodes, ["2", "x"]) == Some(LocalFile([1], time))
    ensures var before := map[own := RemoteFile([HashOf(cfg, 1)])];
            var diff := Diff("root", [ByteTwo(cfg, foreign)], [BytesOneAndThree(cfg, own)], [], [], [], []);
            Tracked(cfg, own) && MirrorsPath(cfg, before, st, own) && EndsWrong(cfg, st, before, diff, foreign, own)
  {
    ForeignPathCollides();
    assert foreign[5] != own[5];
    WrongBesideBase(cfg, st, foreign, own, time);
  }

  lemma {:induction false} WrongBesideBase(cfg: Config, st: PullState, foreign: string, own: string, time: int)
    requires TakesAll(cfg) && cfg.blob.chunkSize == 1 && foreign != own && Tracked(cfg, own) && Local(cfg, foreign) == Local(cfg, own)
    requires Get(st.nodes, Local(cfg, own)) == Some(LocalFile([1], time))
    ensures var before := map[own := RemoteFile([HashOf(cfg, 1)])];
            var diff := Diff("root", [ByteTwo(cfg, foreign)], [BytesOneAndThree(cfg, own)], [], [], [], []);
            MirrorsPath(cfg, before, st, own) && EndsWrong(cfg, st, before, diff, foreign, own)
  {
    var before := map[own := RemoteFile([HashOf(cfg, 1)])];
    var diff := Diff("root", [ByteTwo(cfg, foreign)], [BytesOneAndThree(cfg, own)], [], [], [], []);
    assert diff.Files() == [ByteTwo(cfg, foreign), BytesOneAndThree(cfg, own)] && diff.Links() == [];
    HashesDiffer(cfg);
    HonestOnTwo(cfg, before, diff, foreign, own);
    ComesOutWrong(cfg, st, before, diff, foreign, own);
  }

  /** Two files beside each other in the base. */
  lemma {:induction false} NamesOfAAndB(cfg: Config)
    ensures var a, b := ComputeRemotePath(["a"], cfg.remoteBase), ComputeRemotePath(["b"], cfg.remoteBase);
            a != b && Local(cfg, a) == ["a"] && Local(cfg, b) == ["b"] && Tmp(cfg, b) != ["a"]
  {
    LocalOfRemote(["a"], cfg.remoteBase);
    LocalOfRemote(["b"], cfg.remoteBase);
    assert ["b"][..0] == [] && [] + ["b" + TMP_SUFFIX] == ["b" + TMP_SUFFIX];
    assert |"b" + TMP_SUFFIX| > 1;
    assert Tmp(cfg, ComputeRemotePath(["b"], cfg.remoteBase))[0] == "b" + TMP_SUFFIX;
  }

  /**
   The user has replaced the local file `a` by a symlink to `b`, and both are modified on the
   server, `b` listed first: `a` is put together from what `b` has just become.
   */
  lemma {:induction false} FileBehindLinkIsReused(cfg: Config, st: PullState, a: string, b: string, time: int, was: seq<Digest>)
    requires TakesAll(cfg) && cfg.blob.chunkSize == 1 && cfg.links.most > 0 && cfg.links.leadTo(["a"], "b") == InTree(["b"])
    requires a == ComputeRemotePath(["a"], cfg.remoteBase) && b == ComputeRemotePath(["b"], cfg.remoteBase)
    requires Get(st.nodes, ["a"]) == Some(LocalLink("b")) && Get(st.nodes, ["b"]) == Some(LocalFile([1], time))
    requires was != [HashOf(cfg, 1), HashOf(cfg, 3)]
    ensures var before := map[a := RemoteFile(was), b := RemoteFile([HashOf(cfg, 1)])];
            EndsWrong(cfg, st, before, Diff("root", [], [ByteTwo(cfg, b), BytesOneAndThree(cfg, a)], [], [], [], []), b, a)
  {
    NamesOfAAndB(cfg);
    WrongBehindLink(cfg, st, a, b, time, was);
  }

  lemma {:induction false} WrongBehindLink(cfg: Config, st: PullState, a: string, b: string, time: int, was: seq<Digest>)
    requires TakesAll(cfg) && cfg.blob.chunkSize == 1 && cfg.links.most > 0 && a != b && Local(cfg, a) != Local(cfg, b)
    requires Tmp(cfg, b) != Local(cfg, a)
    requires var node := Get(st.nodes, Local(cfg, a));
             node.Some? && node.value.LocalLink? && cfg.links.leadTo(Local(cfg, a), node.value.target) == InTree(Local(cfg, b))
    requires Get(st.nodes, Local(cfg, b)) == Some(LocalFile([1], time)) && was != [HashOf(cfg, 1), HashOf(cfg, 3)]
    ensures var before := map[a := RemoteFile(was), b := RemoteFile([HashOf(cfg, 1)])];
            EndsWrong(cfg, st, before, Diff("root", [], [ByteTwo(cfg, b), BytesOneAndThree(cfg, a)], [], [], [], []), b, a)
  {
    var before := map[a := RemoteFile(was), b := RemoteFile([HashOf(cfg, 1)])];
    var diff := Diff("root", [], [ByteTwo(cfg, b), BytesOneAndThree(cfg, a)], [], [], [], []);
    assert diff.Files() == [ByteTwo(cfg, b), BytesOneAndThree(cfg, a)] && diff.Links() == [];
    HonestOnTwo(cfg, before, diff, b, a);
    OneLinkFurther(cfg, st.nodes, a, b);
    OneLinkFurther(cfg, FirstChanged(cfg, st.nodes, b), a, b);
    ComesOutWrong(cfg, st, before, diff, b, a);
  }

  lemma {:induction false} OneLinkFurther(cfg: Config, nodes: Tree, a: string, b: string)
    requires cfg.links.most > 0
    requires var node := Get(nodes, Local(cfg, a));
             node.Some? && node.value.LocalLink? && cfg.links.leadTo(Local(cfg, a), node.value.target) == InTree(Local(cfg, b))
    requires var node := Get(nodes, Local(cfg, b)); node.Some? && node.value.LocalFile?
    ensures OpenedIn(nodes, cfg.links, Local(cfg, a)) == OpenedIn(nodes, cfg.links, Local(cfg, b)) == Some(nodes[Local(cfg, b)].bytes)
  {
    assert Follow(nodes, cfg.links, Local(cfg, b), cfg.links.most - 1) == Readable(nodes[Local(cfg, b)].bytes);
  }

  // ---------------------------------------------------------------------------------------
  // Runs of pulls
  // ---------------------------------------------------------------------------------------

  /** The snapshots the server has had, by root hash. */
  type History = map<string, Snapshot>

  function SnapshotAt(history: History, checkpoint: Option<string>): Snapshot {
    if checkpoint.Some? && checkpoint.value in history then history[checkpoint.value] else map[]
  }

  /** Local state and the saved checkpoint. */
  datatype Client = Client(st: PullState, checkpoint: Option<string>)

  /** One pull: whatever fails, the checkpoint becomes the diff's root hash. */
  ghost predicate PullStep(cfg: Config, history: History, a: Client, b: Client, diff: Diff, trace: Trace) {
    diff.rootHash in history &&
    Sound(cfg, a.st.(tally := NO_TALLY), SnapshotAt(history, a.checkpoint), history[diff.rootHash], diff, trace) &&
    b == Client(After(cfg, a.st.(tally := NO_TALLY), diff, trace), Some(diff.rootHash))
  }

  ghost predicate PullRun(cfg: Config, history: History, clients: seq<Client>, diffs: seq<Diff>, traces: seq<Trace>) {
    |clients| == |diffs| + 1 == |traces| + 1 &&
    forall i {:trigger diffs[i]} :: 0 <= i < |diffs| ==> PullStep(cfg, history, clients[i], clients[i + 1], diffs[i], traces[i])
  }

  /** The local file of the path is what the snapshot of the saved checkpoint shows. */
  predicate MirrorsCheckpoint(cfg: Config, history: History, client: Client, path: string) {
    MirrorsPath(cfg, SnapshotAt(history, client.checkpoint), client.st, path)
  }

  /** Nothing failed, nobody else landed on the path, and the pull does not lose it. */
  ghost predicate GoodStep(cfg: Config, history: History, a: Client, b: Client, diff: Diff, trace: Trace, path: string) {
    b.st.tally.failed == 0 && Alone(cfg, diff, path) && |trace.files| == |diff.Files()| &&
    !Lost(cfg, a.st.nodes, SnapshotAt(history, a.checkpoint), SnapshotAt(history, b.checkpoint), diff, HashedIn(trace.files), path)
  }

  lemma {:induction false} StepKeepsMirror(cfg: Config, history: History, a: Client, b: Client, diff: Diff, trace: Trace, path: string)
    requires PullStep(cfg, history, a, b, diff, trace) && Tracked(cfg, path)
    requires MirrorsCheckpoint(cfg, history, a, path) && GoodStep(cfg, history, a, b, diff, trace, path)
    ensures MirrorsCheckpoint(cfg, history, b, path)
  {
    PullKeepsMirrorIff(cfg, SnapshotAt(history, a.checkpoint), history[diff.rootHash], a.st.(tally := NO_TALLY), diff, trace, path);
  }

  /**
   Over any run of pulls without failures, a tracked path that no other path of the diffs lands on
   and that no pull loses is, at every saved checkpoint, what that checkpoint's snapshot shows.
   */
  lemma {:induction false} RunKeepsMirror(cfg: Config, history: History, clients: seq<Client>, diffs: seq<Diff>, traces: seq<Trace>, path: string, k: nat)
    requires PullRun(cfg, history, clients, diffs, traces) && k < |clients| && Tracked(cfg, path)
    requires MirrorsCheckpoint(cfg, history, clients[0], path)
    requires forall i {:trigger diffs[i]} :: 0 <= i < |diffs| ==> GoodStep(cfg, history, clients[i], clients[i + 1], diffs[i], traces[i], path)
    ensures MirrorsCheckpoint(cfg, history, clients[k], path)
  {
    if k > 0 {
      RunKeepsMirror(cfg, history, clients, diffs, traces, path, k - 1);
      StepKeepsMirror(cfg, history, clients[k - 1], clients[k], diffs[k - 1], traces[k - 1], path);
    }
  }

  /**
   A pull moves the checkpoint whatever fails: where an own outcome of a path - its file, its
   deletion, its symlink - did not go through, the saved checkpoint is not what is on disk.
   */
  lemma {:induction false} FailureMovesCheckpointAnyway(cfg: Config, history: History, a: Client, b: Client, diff: Diff, trace: Trace, path: string)
    requires PullStep(cfg, history, a, b, diff, trace) && Tracked(cfg, path) && Passes(cfg, path) && MirrorsCheckpoint(cfg, history, a, path)
    requires Alone(cfg, diff, path) && NobodysTmp(cfg, diff.Files(), path)
    ensures b.checkpoint == Some(diff.rootHash)
    ensures MirrorsCheckpoint(cfg, history, b, path) <==>
            GoesThrough(cfg, SnapshotAt(history, a.checkpoint), history[diff.rootHash], diff, trace, path,
                        OwnReusesHold(cfg, a.st.(tally := NO_TALLY), SnapshotAt(history, a.checkpoint), diff, trace, path))
  {
    PathMirrorsIffThrough(cfg, SnapshotAt(history, a.checkpoint), history[diff.rootHash], a.st.(tally := NO_TALLY), diff, trace, path);
  }
}
