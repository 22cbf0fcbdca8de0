/**
 Which paths a pull leaves to other relationships, and which of the rest its filter rejects,
 on the exclusions and the names themselves.
 */
module PullTerritory {
  import opened Prelude
  import opened Paths
  import opened Assemble
  import opened Hierarchy
  import opened MetadataStore
  import opened Pull

  /** Some exclusion is a prefix of the path. */
  ghost predicate BelowChild(exclusions: seq<string>, path: string) {
    exists root :: root in exclusions && |root| <= |path| && path[..|root|] == root
  }

  lemma {:induction false} ExcludedIsBelowChild(cfg: Config, path: string)
    ensures Excluded(cfg, path) <==> BelowChild(cfg.exclusions, path)
  {
    if i :| 0 <= i < |cfg.exclusions| && IsPrefix(cfg.exclusions[i], path) {
      assert cfg.exclusions[i] in cfg.exclusions;
    }
    if root :| root in cfg.exclusions && |root| <= |path| && path[..|root|] == root {
      var i :| 0 <= i < |cfg.exclusions| && cfg.exclusions[i] == root;
    }
  }

  // ---------------------------------------------------------------------------------------
  // What is skipped
  // ---------------------------------------------------------------------------------------

  /** A remote name for a file of the relationship, without the components of its folder. */
  lemma {:induction false} FileNameIsLast(folder: Components, name: string, remoteBase: string)
    requires AllComponents(folder + [name]) && name != ".."
    ensures FileName(ComputeRemotePath(folder + [name], remoteBase)) == name
  {
    ComponentsOfRemote(folder + [name], remoteBase);
    var names := Kept(Split(TrimEndSlashes(remoteBase))) + (folder + [name]);
    assert names[|names| - 1] == name;
  }

  /**
   A pull passes over the files below a child's root and over those whose last name the filter
   rejects; over symlinks and deletions below a child's root; and over nothing else.
   */
  lemma {:induction false} SkippedIff(cfg: Config, diff: Diff, trace: Trace, folder: Components, name: string)
    requires Fits(cfg, diff, trace) && AllComponents(folder + [name]) && name != ".."
    ensures forall i :: 0 <= i < |diff.Files()| && diff.Files()[i].path == ComputeRemotePath(folder + [name], cfg.remoteBase) ==>
              (trace.files[i].FileSkipped? <==> BelowChild(cfg.exclusions, diff.Files()[i].path) || !cfg.matchesFilter(name))
    ensures forall i :: 0 <= i < |diff.Links()| ==>
              (trace.links[i].LinkSkipped? <==> BelowChild(cfg.exclusions, diff.Links()[i].path))
    ensures cfg.deletesLocally ==>
              |trace.fileDeletes| == |diff.filesDeleted| && |trace.linkDeletes| == |diff.linksDeleted| &&
              (forall i :: 0 <= i < |diff.filesDeleted| ==>
                (trace.fileDeletes[i].NotOurs? <==> BelowChild(cfg.exclusions, diff.filesDeleted[i]))) &&
              (forall i :: 0 <= i < |diff.linksDeleted| ==>
                (trace.linkDeletes[i].NotOurs? <==> BelowChild(cfg.exclusions, diff.linksDeleted[i])))
    ensures !cfg.deletesLocally ==> trace.fileDeletes == [] && trace.linkDeletes == []
  {
    FileNameIsLast(folder, name, cfg.remoteBase);
    forall path: string ensures Excluded(cfg, path) <==> BelowChild(cfg.exclusions, path) {
      ExcludedIsBelowChild(cfg, path);
    }
  }

  // ---------------------------------------------------------------------------------------
  // The territory of a child
  // ---------------------------------------------------------------------------------------

  lemma {:induction false} FilesPassOver(cfg: Config, st: PullState, items: seq<FileEntry>, outs: seq<FileOutcome>, path: string)
    requires |items| == |outs| && forall i :: 0 <= i < |items| && items[i].path == path ==> outs[i].FileSkipped?
    ensures Get(ApplyFiles(cfg, st, items, outs).records, path) == Get(st.records, path)
  {
    if items != [] {
      FilesPassOver(cfg, st, items[..|items| - 1], outs[..|items| - 1], path);
    }
  }

  lemma {:induction false} LinksPassOver(cfg: Config, st: PullState, items: seq<LinkEntry>, outs: seq<LinkOutcome>, path: string)
    requires |items| == |outs| && forall i :: 0 <= i < |items| && items[i].path == path ==> outs[i].LinkSkipped?
    ensures Get(ApplyLinks(cfg, st, items, outs).records, path) == Get(st.records, path)
  {
    if items != [] {
      LinksPassOver(cfg, st, items[..|items| - 1], outs[..|items| - 1], path);
    }
  }

  lemma {:induction false} DeletesPassOver(cfg: Config, st: PullState, items: seq<string>, outs: seq<DeleteOutcome>, path: string)
    requires |items| == |outs| && forall i :: 0 <= i < |items| && items[i] == path ==> outs[i].NotOurs?
    ensures Get(ApplyFileDeletes(cfg, st, items, outs).records, path) == Get(st.records, path)
    ensures Get(ApplyLinkDeletes(cfg, st, items, outs).records, path) == Get(st.records, path)
  {
    if items != [] {
      DeletesPassOver(cfg, st, items[..|items| - 1], outs[..|items| - 1], path);
    }
  }

  /** Whatever the diff says and whatever else happens, the record of a path below a child's root stays as it was. */
  lemma {:induction false} ChildRecordStays(cfg: Config, st: PullState, diff: Diff, trace: Trace, path: string)
    requires Fits(cfg, diff, trace) && BelowChild(cfg.exclusions, path)
    ensures Get(After(cfg, st, diff, trace).records, path) == Get(st.records, path)
  {
    ExcludedIsBelowChild(cfg, path);
    FilesPassOver(cfg, st, diff.Files(), trace.files, path);
    DeletesPassOver(cfg, AfterFiles(cfg, st, diff, trace), FilesDeletedHere(cfg, diff), trace.fileDeletes, path);
    LinksPassOver(cfg, AfterFileDeletes(cfg, st, diff, trace), diff.Links(), trace.links, path);
    DeletesPassOver(cfg, AfterLinks(cfg, st, diff, trace), LinksDeletedHere(cfg, diff), trace.linkDeletes, path);
  }

  /** Every path of the diff whose local file, or temporary file, is at this place lies below a child's root. */
  ghost predicate OnlyChildrenReach(cfg: Config, diff: Diff, at: Components) {
    (forall i :: 0 <= i < |diff.Files()| && (Local(cfg, diff.Files()[i].path) == at || Tmp(cfg, diff.Files()[i].path) == at) ==>
      BelowChild(cfg.exclusions, diff.Files()[i].path)) &&
    (forall i :: 0 <= i < |diff.filesDeleted| && Local(cfg, diff.filesDeleted[i]) == at ==> BelowChild(cfg.exclusions, diff.filesDeleted[i])) &&
    (forall i :: 0 <= i < |diff.Links()| && Local(cfg, diff.Links()[i].path) == at ==> BelowChild(cfg.exclusions, diff.Links()[i].path)) &&
    (forall i :: 0 <= i < |diff.linksDeleted| && Local(cfg, diff.linksDeleted[i]) == at ==> BelowChild(cfg.exclusions, diff.linksDeleted[i]))
  }

  lemma {:induction false} NoFileTouches(cfg: Config, items: seq<FileEntry>, outs: seq<FileOutcome>, at: Components)
    requires |items| == |outs|
    requires forall i :: 0 <= i < |items| && (Local(cfg, items[i].path) == at || Tmp(cfg, items[i].path) == at) ==> outs[i].FileSkipped?
    ensures FilesTouch(cfg, items, outs, at) == None
  {
    if items != [] {
      NoFileTouches(cfg, items[..|items| - 1], outs[..|items| - 1], at);
    }
  }

  lemma {:induction false} NoLinkTouches(cfg: Config, items: seq<LinkEntry>, outs: seq<LinkOutcome>, at: Components)
    requires |items| == |outs|
    requires forall i :: 0 <= i < |items| && Local(cfg, items[i].path) == at ==> outs[i].LinkSkipped?
    ensures LinksTouch(cfg, items, outs, at) == None
  {
    if items != [] {
      NoLinkTouches(cfg, items[..|items| - 1], outs[..|items| - 1], at);
    }
  }

  /** And so does what is on disk, wherever no other path of the diff arrives. */
  lemma {:induction false} ChildNodeStays(cfg: Config, st: PullState, diff: Diff, trace: Trace, at: Components)
    requires Fits(cfg, diff, trace) && OnlyChildrenReach(cfg, diff, at)
    ensures Get(After(cfg, st, diff, trace).nodes, at) == Get(st.nodes, at)
  {
    forall path: string ensures Excluded(cfg, path) <==> BelowChild(cfg.exclusions, path) {
      ExcludedIsBelowChild(cfg, path);
    }
    NodeIs(cfg, st, diff, trace, at);
    NoFileTouches(cfg, diff.Files(), trace.files, at);
    NoLinkTouches(cfg, diff.Links(), trace.links, at);
    assert !GoneAt(cfg, AfterFiles(cfg, st, diff, trace), FilesDeletedHere(cfg, diff), trace.fileDeletes, at) by {
      forall i | 0 <= i < |FilesDeletedHere(cfg, diff)|
        ensures !RemovesAt(cfg, AfterFiles(cfg, st, diff, trace), FilesDeletedHere(cfg, diff), trace.fileDeletes, at, i)
      {
      }
    }
  }

  // ---------------------------------------------------------------------------------------
  // Nested relationships
  // ---------------------------------------------------------------------------------------

  lemma {:induction false} LeftToChild(self: Relationship, all: seq<Relationship>, path: string)
    requires IsPrefix(self.remotePath, path)
    ensures !Handles(self, all, RemoteRoot, path) <==> BelowChild(Exclusions(self, all, RemoteRoot), path)
  {
    var exclusions := Exclusions(self, all, RemoteRoot);
    if i :| 0 <= i < |exclusions| && IsPrefix(exclusions[i], path) {
      assert exclusions[i] in exclusions;
    }
    if root :| root in exclusions && |root| <= |path| && path[..|root|] == root {
      var i :| 0 <= i < |exclusions| && exclusions[i] == root;
      assert IsPrefix(exclusions[i], path);
    }
  }

  /** The pull of a relationship never changes the record of a path that it covers but a child handles. */
  lemma {:induction false} PullKeepsToItsTerritory(
      self: Relationship, all: seq<Relationship>, cfg: Config, st: PullState, diff: Diff, trace: Trace, path: string)
    requires Fits(cfg, diff, trace) && cfg.exclusions == Exclusions(self, all, RemoteRoot)
    requires IsPrefix(self.remotePath, path) && !Handles(self, all, RemoteRoot, path)
    ensures Get(After(cfg, st, diff, trace).records, path) == Get(st.records, path)
  {
    LeftToChild(self, all, path);
    ChildRecordStays(cfg, st, diff, trace, path);
  }

  /**
   Of the relationships of one connection that cover a path, all but the one with the longest
   root pass over it, and that one does not: the path is in the diff of every pull, and one pull
   takes it.
   */
  lemma {:induction false} OnePullTakesThePath(all: seq<Relationship>, path: string) returns (owner: nat)
    requires OneConnection(all) && DistinctRoots(all, RemoteRoot)
    requires exists i :: 0 <= i < |all| && IsPrefix(all[i].remotePath, path)
    ensures owner < |all| && IsPrefix(all[owner].remotePath, path)
    ensures forall i :: 0 <= i < |all| && IsPrefix(all[i].remotePath, path) ==> |all[i].remotePath| <= |all[owner].remotePath|
    ensures forall i, cfg: Config, diff, trace, k ::
              0 <= i < |all| && IsPrefix(all[i].remotePath, path) &&
              cfg.exclusions == Exclusions(all[i], all, RemoteRoot) && Fits(cfg, diff, trace) &&
              0 <= k < |diff.Files()| && diff.Files()[k].path == path && cfg.matchesFilter(FileName(path)) ==>
                (trace.files[k].FileSkipped? <==> i != owner)
  {
    var covering :| 0 <= covering < |all| && IsPrefix(all[covering].remotePath, path);
    assert IsPrefix(RemoteRoot(all[covering]), path);
    owner := PathHasOneHandler(all, RemoteRoot, path);
    assert Handles(all[owner], all, RemoteRoot, path);
    forall i, cfg: Config, diff, trace, k |
        0 <= i < |all| && IsPrefix(all[i].remotePath, path) &&
        cfg.exclusions == Exclusions(all[i], all, RemoteRoot) && Fits(cfg, diff, trace) &&
        0 <= k < |diff.Files()| && diff.Files()[k].path == path && cfg.matchesFilter(FileName(path))
      ensures trace.files[k].FileSkipped? <==> i != owner
    {
      LeftToChild(all[i], all, path);
      ExcludedIsBelowChild(cfg, path);
    }
  }
}
