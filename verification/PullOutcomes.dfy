/** What a pull counts its outcomes as, and what its deletions find at the end of a symlink. */
module PullOutcomes {
  import opened Prelude
  import opened Paths
  import opened Assemble
  import opened MetadataStore
  import opened Pull

  // ---------------------------------------------------------------------------------------
  // The counters
  // ---------------------------------------------------------------------------------------

  function Count<T>(s: seq<T>, counts: T -> bool): nat {
    if s == [] then 0 else Count(s[..|s| - 1], counts) + if counts(s[|s| - 1]) then 1 else 0
  }

  function Counted(files: Tally, more: Tally): Tally {
    Tally(files.pulled + more.pulled, files.skipped + more.skipped, files.failed + more.failed,
          files.deleted + more.deleted, files.links + more.links, files.errors + more.errors)
  }

  /** A file pulled, a file passed over, a file failed; an error for every failure and every record that was not written. */
  function FilesCounted(outs: seq<FileOutcome>): Tally {
    Tally(Count(outs, (out: FileOutcome) => out.FilePulled?),
          Count(outs, (out: FileOutcome) => out.FileSkipped?),
          Count(outs, (out: FileOutcome) => out.FileUnprepared? || out.FileFailed?), 0, 0,
          Count(outs, (out: FileOutcome) => out.FileUnprepared? || out.FileFailed? || (out.FilePulled? && !out.recorded)))
  }

  function DeletesCounted(outs: seq<DeleteOutcome>): Tally {
    Tally(0, 0, Count(outs, (out: DeleteOutcome) => out.DeleteFailed?),
          Count(outs, (out: DeleteOutcome) => out.Deleted?), 0,
          Count(outs, (out: DeleteOutcome) => out.DeleteFailed? || (out.Deleted? && !out.recordDropped)))
  }

  /** Symlinks passed over are not counted. */
  function LinksCounted(outs: seq<LinkOutcome>): Tally {
    Tally(0, 0, Count(outs, (out: LinkOutcome) => out.LinkFailed?), 0,
          Count(outs, (out: LinkOutcome) => out.LinkMade?),
          Count(outs, (out: LinkOutcome) => out.LinkFailed? || (out.LinkMade? && !out.recorded)))
  }

  lemma {:induction false} FilesTally(cfg: Config, st: PullState, items: seq<FileEntry>, outs: seq<FileOutcome>)
    requires |items| == |outs|
    ensures ApplyFiles(cfg, st, items, outs).tally == Counted(st.tally, FilesCounted(outs))
  {
    if items != [] {
      FilesTally(cfg, st, items[..|items| - 1], outs[..|outs| - 1]);
    }
  }

  lemma {:induction false} FileDeletesTally(cfg: Config, st: PullState, items: seq<string>, outs: seq<DeleteOutcome>)
    requires |items| == |outs|
    ensures ApplyFileDeletes(cfg, st, items, outs).tally == Counted(st.tally, DeletesCounted(outs))
  {
    if items != [] {
      FileDeletesTally(cfg, st, items[..|items| - 1], outs[..|outs| - 1]);
    }
  }

  lemma {:induction false} LinksTally(cfg: Config, st: PullState, items: seq<LinkEntry>, outs: seq<LinkOutcome>)
    requires |items| == |outs|
    ensures ApplyLinks(cfg, st, items, outs).tally == Counted(st.tally, LinksCounted(outs))
  {
    if items != [] {
      LinksTally(cfg, st, items[..|items| - 1], outs[..|outs| - 1]);
    }
  }

  lemma {:induction false} LinkDeletesTally(cfg: Config, st: PullState, items: seq<string>, outs: seq<DeleteOutcome>)
    requires |items| == |outs|
    ensures ApplyLinkDeletes(cfg, st, items, outs).tally == Counted(st.tally, DeletesCounted(outs))
  {
    if items != [] {
      LinkDeletesTally(cfg, st, items[..|items| - 1], outs[..|outs| - 1]);
    }
  }

  lemma {:induction false} EveryFileIsSomething(outs: seq<FileOutcome>)
    ensures FilesCounted(outs).pulled + FilesCounted(outs).skipped + FilesCounted(outs).failed == |outs|
  {
    if outs != [] {
      EveryFileIsSomething(outs[..|outs| - 1]);
    }
  }

  /** The counters of any pull are the counts of its outcomes, and every file of the diff is counted once. */
  lemma {:induction false} CountersAreOutcomes(cfg: Config, st: PullState, diff: Diff, trace: Trace)
    requires Fits(cfg, diff, trace)
    ensures After(cfg, st, diff, trace).tally ==
            Counted(Counted(Counted(Counted(st.tally, FilesCounted(trace.files)), DeletesCounted(trace.fileDeletes)),
                            LinksCounted(trace.links)), DeletesCounted(trace.linkDeletes))
    ensures FilesCounted(trace.files).pulled + FilesCounted(trace.files).skipped + FilesCounted(trace.files).failed == |diff.Files()|
  {
    FilesTally(cfg, st, diff.Files(), trace.files);
    FileDeletesTally(cfg, AfterFiles(cfg, st, diff, trace), FilesDeletedHere(cfg, diff), trace.fileDeletes);
    LinksTally(cfg, AfterFileDeletes(cfg, st, diff, trace), diff.Links(), trace.links);
    LinkDeletesTally(cfg, AfterLinks(cfg, st, diff, trace), LinksDeletedHere(cfg, diff), trace.linkDeletes);
    EveryFileIsSomething(trace.files);
  }

  // ---------------------------------------------------------------------------------------
  // Deletions
  // ---------------------------------------------------------------------------------------

  /**
   The deletion of a file removes a symlink only if the symlink leads to something: a chain of
   symlinks, no longer than the system follows, that ends at a place in the tree. A dangling one
   stays, though the deletion is counted and the record is dropped. The deletion of a symlink
   removes it either way.
   */
  lemma {:induction false} DeletionThroughLinks(cfg: Config, st: PullState, path: string, chain: seq<Components>, dropped: bool)
    requires |chain| > 1 && chain[0] == Local(cfg, path) && IsChain(st.nodes, cfg.links, chain)
    requires chain[|chain| - 1] in st.nodes ==> st.nodes[chain[|chain| - 1]].LocalFile?
    ensures Get(FileDeleteStep(cfg, st, path, Deleted(dropped)).nodes, chain[0]) ==
            if chain[|chain| - 1] in st.nodes && |chain| - 1 <= cfg.links.most then None else Get(st.nodes, chain[0])
    ensures Get(LinkDeleteStep(cfg, st, path, Deleted(dropped)).nodes, chain[0]) == None
    ensures FileDeleteStep(cfg, st, path, Deleted(dropped)).tally.deleted == st.tally.deleted + 1
    ensures dropped ==> path !in FileDeleteStep(cfg, st, path, Deleted(dropped)).records
  {
    ChainIsFollowed(st.nodes, cfg.links, chain, cfg.links.most);
  }

  /** A symlink that leads out of the tree is removed if there is anything at its end, a folder included. */
  lemma {:induction false} DeletionThroughOutsideLink(cfg: Config, st: PullState, path: string, at: Components, found: Found, dropped: bool)
    requires at == Local(cfg, path) && at in st.nodes && st.nodes[at].LocalLink?
    requires cfg.links.leadTo(at, st.nodes[at].target) == OutOfTree(found)
    ensures at !in FileDeleteStep(cfg, st, path, Deleted(dropped)).nodes <==> !found.Nothing?
  {
    assert Follow(st.nodes, cfg.links, at, cfg.links.most) == found;
  }
}
