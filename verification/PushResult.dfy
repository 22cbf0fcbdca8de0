/**
 What a push without failures amounts to: for every path, the remote node and the record it
 leaves are a function of the tree and of the state before, whatever the order, the batches
 and the concurrency.
 */
module PushResult {
  import opened Prelude
  import opened Chunks
  import opened Paths
  import opened Planning
  import opened Hierarchy
  import opened MetadataStore
  import opened Push
  import opened PushFacts
  import opened PushClean

  // ---------------------------------------------------------------------------------------
  // From the walk to the requests
  // ---------------------------------------------------------------------------------------

  /** The marked entry of that remote name. */
  function Find(cfg: Config, walk: seq<Entry>, q: string): Option<Entry> {
    if walk == [] then None
    else
      var e := walk[|walk| - 1];
      if Marks(cfg, e) && RemotePath(cfg, e) == q then Some(e) else Find(cfg, walk[..|walk| - 1], q)
  }

  /** A marked file without a record of its own: only such a file looks at its old name. */
  predicate LooksBack(cfg: Config, store: View, e: Entry) {
    e.kind.Regular? && Marks(cfg, e) && RemotePath(cfg, e) !in store && OldPath(cfg, e).Some?
  }

  /**
   The old name of a file without a record is not the name of another scanned entry, and no two
   such files share an old name.
   */
  ghost predicate NonOverlap(cfg: Config, store: View, walk: seq<Entry>) {
    forall i, j :: 0 <= i < |walk| && 0 <= j < |walk| && i != j && LooksBack(cfg, store, walk[i]) ==>
      (Marks(cfg, walk[j]) ==> OldPath(cfg, walk[i]) != Some(RemotePath(cfg, walk[j]))) &&
      (LooksBack(cfg, store, walk[j]) ==> OldPath(cfg, walk[i]) != OldPath(cfg, walk[j]))
  }

  lemma {:induction false} FoundIsInWalk(cfg: Config, walk: seq<Entry>, q: string) returns (i: nat)
    requires Find(cfg, walk, q).Some?
    ensures i < |walk| && walk[i] == Find(cfg, walk, q).value && Marks(cfg, walk[i]) && RemotePath(cfg, walk[i]) == q
  {
    var n := |walk| - 1;
    if Marks(cfg, walk[n]) && RemotePath(cfg, walk[n]) == q {
      i := n;
    } else {
      i := FoundIsInWalk(cfg, walk[..n], q);
    }
  }

  lemma {:induction false} MarkedIsFound(cfg: Config, walk: seq<Entry>, i: nat)
    requires ProperWalk(walk) && i < |walk| && Marks(cfg, walk[i])
    ensures Find(cfg, walk, RemotePath(cfg, walk[i])) == Some(walk[i])
  {
    var n := |walk| - 1;
    if i < n {
      if RemotePath(cfg, walk[n]) == RemotePath(cfg, walk[i]) {
        RemotePathInjective(walk[n].relative, walk[i].relative, cfg.remoteBase);
      }
      MarkedIsFound(cfg, walk[..n], i);
    }
  }

  lemma {:induction false} RequestOrigin(cfg: Config, mem: View, walk: seq<Entry>, k: nat) returns (i: nat)
    requires k < |ScanAll(cfg, mem, walk).requests|
    ensures i < |walk| && Judge(cfg, mem, walk[i]) == Prepare(ScanAll(cfg, mem, walk).requests[k])
  {
    var n := |walk| - 1;
    var front := ScanAll(cfg, mem, walk[..n]);
    if k < |front.requests| {
      i := RequestOrigin(cfg, mem, walk[..n], k);
    } else {
      i := n;
    }
  }

  lemma {:induction false} RequestOf(cfg: Config, mem: View, walk: seq<Entry>, i: nat)
    requires i < |walk| && Judge(cfg, mem, walk[i]).Prepare?
    ensures Judge(cfg, mem, walk[i]).request in ScanAll(cfg, mem, walk).requests
  {
    var n := |walk| - 1;
    if i < n {
      RequestOf(cfg, mem, walk[..n], i);
      var r := Judge(cfg, mem, walk[..n][i]).request;
      var front := ScanAll(cfg, mem, walk[..n]).requests;
      var k :| 0 <= k < |front| && front[k] == r;
      assert ScanAll(cfg, mem, walk).requests[k] == r;
    } else {
      var requests := ScanAll(cfg, mem, walk).requests;
      assert requests[|requests| - 1] == Judge(cfg, mem, walk[n]).request;
    }
  }

  lemma {:induction false} LinkOrigin(cfg: Config, mem: View, walk: seq<Entry>, k: nat) returns (i: nat)
    requires k < |ScanAll(cfg, mem, walk).links|
    ensures i < |walk| && Judge(cfg, mem, walk[i]) == MakeLink(ScanAll(cfg, mem, walk).links[k])
  {
    var n := |walk| - 1;
    var front := ScanAll(cfg, mem, walk[..n]);
    if k < |front.links| {
      i := LinkOrigin(cfg, mem, walk[..n], k);
    } else {
      i := n;
    }
  }

  lemma {:induction false} LinkOf(cfg: Config, mem: View, walk: seq<Entry>, i: nat)
    requires i < |walk| && Judge(cfg, mem, walk[i]).MakeLink?
    ensures Judge(cfg, mem, walk[i]).task in ScanAll(cfg, mem, walk).links
  {
    var n := |walk| - 1;
    if i < n {
      LinkOf(cfg, mem, walk[..n], i);
      var task := Judge(cfg, mem, walk[..n][i]).task;
      var front := ScanAll(cfg, mem, walk[..n]).links;
      var k :| 0 <= k < |front| && front[k] == task;
      assert ScanAll(cfg, mem, walk).links[k] == task;
    } else {
      var links := ScanAll(cfg, mem, walk).links;
      assert links[|links| - 1] == Judge(cfg, mem, walk[n]).task;
    }
  }

  lemma {:induction false} SeenIsFound(cfg: Config, mem: View, walk: seq<Entry>, q: string)
    ensures q in ScanAll(cfg, mem, walk).seen <==> Find(cfg, walk, q).Some?
  {
    if walk != [] {
      SeenIsFound(cfg, mem, walk[..|walk| - 1], q);
    }
  }

  ghost predicate DistinctRequests(requests: seq<Request>) {
    forall k, l :: 0 <= k < l < |requests| ==> requests[k].path != requests[l].path
  }

  /** Requests of one scan stand for different entries. */
  lemma {:induction false} ScanDistinct(cfg: Config, mem: View, walk: seq<Entry>)
    requires ProperWalk(walk)
    ensures DistinctRequests(ScanAll(cfg, mem, walk).requests) && Distinct(ScanAll(cfg, mem, walk).requests)
  {
    if walk != [] {
      var n := |walk| - 1;
      ScanDistinct(cfg, mem, walk[..n]);
      var front := ScanAll(cfg, mem, walk[..n]).requests;
      forall k | 0 <= k < |front| ensures front[k].path != RemotePath(cfg, walk[n]) {
        var i := RequestOrigin(cfg, mem, walk[..n], k);
        if RemotePath(cfg, walk[i]) == RemotePath(cfg, walk[n]) {
          RemotePathInjective(walk[i].relative, walk[n].relative, cfg.remoteBase);
        }
      }
      var all := ScanAll(cfg, mem, walk).requests;
      if all != front {
        assert all == front + [all[|front|]] && all[|front|].path == RemotePath(cfg, walk[n]);
      }
    }
  }

  /** And so do its symlink tasks. */
  lemma {:induction false} ScanLinksDistinct(cfg: Config, mem: View, walk: seq<Entry>)
    requires ProperWalk(walk)
    ensures DistinctLinks(ScanAll(cfg, mem, walk).links) && Distinct(ScanAll(cfg, mem, walk).links)
  {
    if walk != [] {
      var n := |walk| - 1;
      ScanLinksDistinct(cfg, mem, walk[..n]);
      var front := ScanAll(cfg, mem, walk[..n]).links;
      forall k | 0 <= k < |front| ensures front[k].path != RemotePath(cfg, walk[n]) {
        var i := LinkOrigin(cfg, mem, walk[..n], k);
        if RemotePath(cfg, walk[i]) == RemotePath(cfg, walk[n]) {
          RemotePathInjective(walk[i].relative, walk[n].relative, cfg.remoteBase);
        }
      }
      var all := ScanAll(cfg, mem, walk).links;
      if all != front {
        assert all == front + [all[|front|]] && all[|front|].path == RemotePath(cfg, walk[n]);
      }
    }
  }

  lemma {:induction false} OnceInMultiset<T>(s: seq<T>, x: T)
    requires Distinct(s) && x in s
    ensures multiset(s)[x] == 1
  {
    var n := |s| - 1;
    assert s == s[..n] + [s[n]];
    if x == s[n] {
      assert x !in s[..n];
    } else {
      OnceInMultiset(s[..n], x);
    }
  }

  lemma {:induction false} TwiceInMultiset<T>(s: seq<T>, i: nat, j: nat)
    requires i < j < |s| && s[i] == s[j]
    ensures multiset(s)[s[i]] >= 2
  {
    assert s == s[..j] + s[j..];
    assert s[i] in s[..j] && s[j] in s[j..];
  }

  lemma {:induction false} PermutationDistinct<T>(a: seq<T>, b: seq<T>)
    requires multiset(a) == multiset(b) && Distinct(b)
    ensures Distinct(a) && forall x :: x in a <==> x in b
  {
    forall x ensures x in a <==> x in b {
      assert x in multiset(a) <==> x in multiset(b);
    }
    forall i, j | 0 <= i < j < |a| ensures a[i] != a[j] {
      if a[i] == a[j] {
        TwiceInMultiset(a, i, j);
        assert a[i] in b;
        OnceInMultiset(b, a[i]);
      }
    }
  }

  // ---------------------------------------------------------------------------------------
  // The result, path by path
  // ---------------------------------------------------------------------------------------

  /** The verified move takes the file away from this old name. */
  ghost predicate MovedAway(cfg: Config, remote: Remote, store: View, walk: seq<Entry>, q: string) {
    exists i :: 0 <= i < |walk| && Judge(cfg, store, walk[i]).Prepare? && Judge(cfg, store, walk[i]).request.oldPath == Some(q) &&
                Match(Judge(cfg, store, walk[i]).request, Get(store, q), Get(remote, q))
  }

  /** The record of an unseen path is taken for a deleted file. */
  predicate TakenForDeleted(cfg: Config, store: View, q: string) {
    q in store && cfg.deletesRemotely && !UnderOldBase(cfg, q) && !IsExcludedByChild(q, cfg.exclusions)
  }

  /** Every query the push had to ask about an old name was answered. */
  ghost predicate Answered(st: PushState, t: Trace)
    requires |t.requests| == |t.fileOuts|
  {
    AllAnswered(st.store, t.requests, t.fileOuts)
  }

  /** The record after a push without failures. */
  function FinalRecord(cfg: Config, store: View, walk: seq<Entry>, q: string): Option<FileSyncMeta> {
    var e := Find(cfg, walk, q);
    if e.Some? then
      match Judge(cfg, store, e.value)
      case Prepare(r) => if r.hashed.Some? then Some(MetaOf(r)) else Get(store, q)
      case MakeLink(task) => Some(LinkMeta(task))
      case _ => Get(store, q)
    else if UnderOldBase(cfg, q) || TakenForDeleted(cfg, store, q) then None
    else Get(store, q)
  }

  /** The remote node after a push without failures. */
  ghost function FinalRemote(cfg: Config, remote: Remote, store: View, walk: seq<Entry>, q: string): Option<RemoteNode> {
    var e := Find(cfg, walk, q);
    if e.Some? then
      match Judge(cfg, store, e.value)
      case Prepare(r) => if HashSame(r) || r.hashed.None? then Get(remote, q) else Some(RFile(r.hashed.value.hash))
      case MakeLink(task) => Some(RLink(task.hash))
      case _ => Get(remote, q)
    else if MovedAway(cfg, remote, store, walk, q) || TakenForDeleted(cfg, store, q) then None
    else Get(remote, q)
  }

  ghost predicate KeysArePaths(store: View) {
    forall p :: p in store ==> store[p].path == p
  }

  /** A push that ended well. */
  ghost predicate CleanRun(cfg: Config, st: PushState, walk: seq<Entry>, t: Trace) {
    ValidTrace(cfg, st, walk, t) && ProperWalk(walk) && KeysArePaths(st.store) && Clean(After(cfg, st, walk, t))
  }

  /** A push that ended well, with no overlap of names. */
  ghost predicate CleanPush(cfg: Config, st: PushState, walk: seq<Entry>, t: Trace) {
    CleanRun(cfg, st, walk, t) && NonOverlap(cfg, st.store, walk)
  }

  lemma {:induction false} RequestsApart(cfg: Config, store: View, walk: seq<Entry>, order: seq<Request>)
    requires multiset(order) == multiset(ScanAll(cfg, store, walk).requests) && ProperWalk(walk) && NonOverlap(cfg, store, walk)
    ensures AllApart(order)
    ensures forall i :: 0 <= i < |order| ==> order[i].stored == Get(store, order[i].path)
  {
    var requests := ScanAll(cfg, store, walk).requests;
    ScanDistinct(cfg, store, walk);
    PermutationDistinct(order, requests);
    forall i, j | 0 <= i < |order| && 0 <= j < |order| && i != j ensures Apart(order[i], order[j]) {
      assert order[i] in requests && order[j] in requests;
      var k :| 0 <= k < |requests| && requests[k] == order[i];
      var l :| 0 <= l < |requests| && requests[l] == order[j];
      OriginsApart(cfg, store, walk, k, l);
    }
    forall i | 0 <= i < |order| ensures order[i].stored == Get(store, order[i].path) {
      assert order[i] in requests;
      var k :| 0 <= k < |requests| && requests[k] == order[i];
      var e := RequestOrigin(cfg, store, walk, k);
    }
  }

  lemma {:induction false} OriginsApart(cfg: Config, store: View, walk: seq<Entry>, k: nat, l: nat)
    requires ProperWalk(walk) && NonOverlap(cfg, store, walk)
    requires var requests := ScanAll(cfg, store, walk).requests; k < |requests| && l < |requests| && k != l
    ensures var requests := ScanAll(cfg, store, walk).requests; Apart(requests[k], requests[l])
  {
    ScanDistinct(cfg, store, walk);
    var i := RequestOrigin(cfg, store, walk, k);
    var j := RequestOrigin(cfg, store, walk, l);
    assert i != j;
  }

  lemma {:induction false} TaskPathsDistinct(cfg: Config, st: PushState, walk: seq<Entry>, t: Trace)
    requires ValidTrace(cfg, st, walk, t) && ProperWalk(walk)
    ensures DistinctLinks(t.links)
  {
    var links := ScanAll(cfg, st.store, walk).links;
    ScanLinksDistinct(cfg, st.store, walk);
    PermutationDistinct(t.links, links);
    forall i, j | 0 <= i < j < |t.links| ensures t.links[i].path != t.links[j].path {
      assert t.links[i] in links && t.links[j] in links;
      var k :| 0 <= k < |links| && links[k] == t.links[i];
      var l :| 0 <= l < |links| && links[l] == t.links[j];
      assert k != l;
    }
  }

  /** Requests whose path or old path is q stand for marked entries. */
  lemma {:induction false} RequestEntry(cfg: Config, st: PushState, walk: seq<Entry>, t: Trace, i: nat) returns (e: nat)
    requires ValidTrace(cfg, st, walk, t) && ProperWalk(walk) && i < |t.requests|
    ensures e < |walk| && walk[e].kind.Regular? && Marks(cfg, walk[e]) && Judge(cfg, st.store, walk[e]) == Prepare(t.requests[i])
    ensures Find(cfg, walk, t.requests[i].path) == Some(walk[e])
  {
    var requests := ScanAll(cfg, st.store, walk).requests;
    ScanDistinct(cfg, st.store, walk);
    PermutationDistinct(t.requests, requests);
    assert t.requests[i] in requests;
    var k :| 0 <= k < |requests| && requests[k] == t.requests[i];
    e := RequestOrigin(cfg, st.store, walk, k);
    MarkedIsFound(cfg, walk, e);
  }

  lemma {:induction false} TaskEntry(cfg: Config, st: PushState, walk: seq<Entry>, t: Trace, i: nat) returns (e: nat)
    requires ValidTrace(cfg, st, walk, t) && ProperWalk(walk) && i < |t.links|
    ensures e < |walk| && Judge(cfg, st.store, walk[e]) == MakeLink(t.links[i])
    ensures Find(cfg, walk, t.links[i].path) == Some(walk[e])
  {
    var links := ScanAll(cfg, st.store, walk).links;
    ScanLinksDistinct(cfg, st.store, walk);
    PermutationDistinct(t.links, links);
    assert t.links[i] in links;
    var k :| 0 <= k < |links| && links[k] == t.links[i];
    e := LinkOrigin(cfg, st.store, walk, k);
    MarkedIsFound(cfg, walk, e);
  }

  lemma {:induction false} FoundRequest(cfg: Config, st: PushState, walk: seq<Entry>, t: Trace, q: string) returns (i: nat)
    requires ValidTrace(cfg, st, walk, t) && ProperWalk(walk)
    requires Find(cfg, walk, q).Some? && Judge(cfg, st.store, Find(cfg, walk, q).value).Prepare?
    ensures i < |t.requests| && t.requests[i] == Judge(cfg, st.store, Find(cfg, walk, q).value).request && t.requests[i].path == q
  {
    var e := FoundIsInWalk(cfg, walk, q);
    RequestOf(cfg, st.store, walk, e);
    ScanDistinct(cfg, st.store, walk);
    PermutationDistinct(t.requests, ScanAll(cfg, st.store, walk).requests);
    i :| 0 <= i < |t.requests| && t.requests[i] == Judge(cfg, st.store, walk[e]).request;
  }

  lemma {:induction false} FoundTask(cfg: Config, st: PushState, walk: seq<Entry>, t: Trace, q: string) returns (i: nat)
    requires ValidTrace(cfg, st, walk, t) && ProperWalk(walk)
    requires Find(cfg, walk, q).Some? && Judge(cfg, st.store, Find(cfg, walk, q).value).MakeLink?
    ensures i < |t.links| && t.links[i] == Judge(cfg, st.store, Find(cfg, walk, q).value).task && t.links[i].path == q
  {
    var e := FoundIsInWalk(cfg, walk, q);
    LinkOf(cfg, st.store, walk, e);
    ScanLinksDistinct(cfg, st.store, walk);
    PermutationDistinct(t.links, ScanAll(cfg, st.store, walk).links);
    i :| 0 <= i < |t.links| && t.links[i] == Judge(cfg, st.store, walk[e]).task;
  }

  // ---------------------------------------------------------------------------------------
  // Phase by phase
  // ---------------------------------------------------------------------------------------

  /** Remote node, stored record and record in memory. */
  datatype Cell = Cell(node: Option<RemoteNode>, record: Option<FileSyncMeta>, mem: Option<FileSyncMeta>)

  function CellAt(st: PushState, q: string): Cell {
    Cell(Get(st.remote, q), Get(st.store, q), Get(st.mem, q))
  }

  function VCell(st: PushState, q: string): Cell {
    Cell(VRemote(st, q), VRecord(st, q), VMem(st, q))
  }

  lemma {:induction false} FilesFlushed(cfg: Config, st: PushState, walk: seq<Entry>, t: Trace, q: string)
    requires |t.requests| == |t.fileOuts| && Clean(AfterFiles(cfg, st, walk, t))
    ensures var files := Files(cfg, AfterScan(cfg, st, walk), t.requests, t.fileOuts);
            Clean(files) && AfterFiles(cfg, st, walk, t).batch == [] && AfterFiles(cfg, st, walk, t).pending == [] &&
            CellAt(AfterFiles(cfg, st, walk, t), q) == VCell(files, q)
  {
    var files := Files(cfg, AfterScan(cfg, st, walk), t.requests, t.fileOuts);
    var flushed := Flush(files, t.lastFlush);
    PendingClean(flushed, t.pendingStored);
    FlushAt(files, t.lastFlush, q);
    FlushPendingAt(flushed, t.pendingStored, q);
  }

  lemma {:induction false} PendingClean(st: PushState, stored: bool)
    requires Clean(FlushPending(st, stored))
    ensures Clean(st)
  {
  }

  lemma {:induction false} LinksFlushed(cfg: Config, st: PushState, walk: seq<Entry>, t: Trace, q: string)
    requires |t.requests| == |t.fileOuts| && |t.links| == |t.linkOuts| && DistinctLinks(t.links)
    requires Clean(AfterLinks(cfg, st, walk, t)) && AfterFiles(cfg, st, walk, t).batch == [] && AfterFiles(cfg, st, walk, t).pending == []
    ensures Clean(AfterFiles(cfg, st, walk, t))
    ensures (forall i :: 0 <= i < |t.links| ==> t.links[i].path != q) ==>
              CellAt(AfterLinks(cfg, st, walk, t), q) == CellAt(AfterFiles(cfg, st, walk, t), q)
    ensures forall i :: 0 <= i < |t.links| && t.links[i].path == q ==>
              CellAt(AfterLinks(cfg, st, walk, t), q) == Cell(Some(RLink(t.links[i].hash)), Some(LinkMeta(t.links[i])), Some(LinkMeta(t.links[i])))
  {
    var mid := AfterFiles(cfg, st, walk, t);
    var linked := Links(cfg, mid, t.links, t.linkOuts);
    PendingClean(linked, t.linksStored);
    if i :| 0 <= i < |t.links| && t.links[i].path == q {
      LinksOwn(cfg, mid, t.links, t.linkOuts, i);
      LinksKeepBatch(cfg, mid, t.links, t.linkOuts);
      FlushPendingAt(linked, t.linksStored, q);
      forall j | 0 <= j < |t.links| && t.links[j].path == q ensures j == i {
      }
    } else {
      LinksOther(cfg, mid, t.links, t.linkOuts, q);
      FlushPendingAt(linked, t.linksStored, q);
    }
  }

  lemma {:induction false} LinksKeepBatch(cfg: Config, st: PushState, tasks: seq<LinkTask>, outs: seq<LinkOut>)
    requires |tasks| == |outs| && Clean(Links(cfg, st, tasks, outs))
    ensures Clean(st)
  {
    if tasks != [] {
      var n := |tasks| - 1;
      LinksCleanFront(cfg, Links(cfg, st, tasks[..n], outs[..n]), tasks[n], outs[n]);
      LinksKeepBatch(cfg, st, tasks[..n], outs[..n]);
    }
  }

  lemma {:induction false} CleanupAt(cfg: Config, st: PushState, seen: set<string>, finishes: bool, dropped: set<string>, q: string)
    requires Clean(Cleanup(cfg, st, seen, finishes, dropped))
    ensures var after := Cleanup(cfg, st, seen, finishes, dropped);
            Clean(st) && after.remote == st.remote &&
            Get(after.mem, q) == (if UnderOldBase(cfg, q) && q !in seen then None else Get(st.mem, q)) &&
            (Get(st.mem, q) == Get(st.store, q) ==> Get(after.store, q) == Get(after.mem, q))
  {
  }

  /** From the cleaned-up state to the end. */
  lemma {:induction false} EndAt(cfg: Config, st: PushState, walk: seq<Entry>, t: Trace, q: string)
    requires ValidTrace(cfg, st, walk, t) && Clean(After(cfg, st, walk, t))
    ensures Clean(AfterLinks(cfg, st, walk, t))
    ensures var linked := CellAt(AfterLinks(cfg, st, walk, t), q);
            var after := CellAt(After(cfg, st, walk, t), q);
            var seen := ScanAll(cfg, st.store, walk).seen;
            linked.mem == linked.record ==>
              if q in seen then after.node == linked.node && after.record == linked.record
              else if UnderOldBase(cfg, q) then after.node == linked.node && after.record == None
              else if linked.mem.Some? && cfg.deletesRemotely && !IsExcludedByChild(q, cfg.exclusions) then after.node == None && after.record == None
              else after.node == linked.node && after.record == linked.record
  {
    var scan := ScanAll(cfg, st.store, walk);
    var cleaned := AfterCleanup(cfg, st, walk, t);
    DeletionsAt(cleaned, t.deletions, t.deleteOuts, q);
    CleanupAt(cfg, AfterLinks(cfg, st, walk, t), scan.seen, t.cleanupFinishes, t.dropped, q);
    assert q in t.deletions <==> q in Elements(t.deletions);
  }

  /** Everything before the end, for a clean push. */
  lemma {:induction false} CleanPhases(cfg: Config, st: PushState, walk: seq<Entry>, t: Trace)
    requires CleanRun(cfg, st, walk, t)
    ensures Clean(AfterLinks(cfg, st, walk, t)) && Clean(AfterFiles(cfg, st, walk, t))
    ensures AfterFiles(cfg, st, walk, t).batch == [] && AfterFiles(cfg, st, walk, t).pending == []
    ensures Clean(Files(cfg, AfterScan(cfg, st, walk), t.requests, t.fileOuts)) && Fresh(AfterScan(cfg, st, walk))
  {
    EndAt(cfg, st, walk, t, "");
    PendingClean(Links(cfg, AfterFiles(cfg, st, walk, t), t.links, t.linkOuts), t.linksStored);
    LinksKeepBatch(cfg, AfterFiles(cfg, st, walk, t), t.links, t.linkOuts);
    FilesFlushed(cfg, st, walk, t, "");
  }

  /** A path that is no symlink task leaves the file phase as it leaves the link phase. */
  lemma {:induction false} ThroughLinks(cfg: Config, st: PushState, walk: seq<Entry>, t: Trace, q: string)
    requires CleanRun(cfg, st, walk, t)
    requires Find(cfg, walk, q).None? || !Judge(cfg, st.store, Find(cfg, walk, q).value).MakeLink?
    ensures CellAt(AfterLinks(cfg, st, walk, t), q) == VCell(Files(cfg, AfterScan(cfg, st, walk), t.requests, t.fileOuts), q)
  {
    CleanPhases(cfg, st, walk, t);
    TaskPathsDistinct(cfg, st, walk, t);
    forall j | 0 <= j < |t.links| ensures t.links[j].path != q {
      var e := TaskEntry(cfg, st, walk, t, j);
    }
    LinksFlushed(cfg, st, walk, t, q);
    FilesFlushed(cfg, st, walk, t, q);
  }

  /** A prepared file whose own path nobody else touches. */
  lemma {:induction false} OwnResultAlone(cfg: Config, st: PushState, walk: seq<Entry>, t: Trace, i: nat)
    requires CleanRun(cfg, st, walk, t) && i < |t.requests| && LeftAlone(t.requests, i, t.requests[i].path)
    ensures var r := t.requests[i];
            r.hashed.Some? &&
            CellAt(AfterLinks(cfg, st, walk, t), r.path) ==
            Cell(if HashSame(r) then Get(st.remote, r.path) else Some(RFile(r.hashed.value.hash)), Some(MetaOf(r)), Some(MetaOf(r)))
  {
    CleanPhases(cfg, st, walk, t);
    var e := RequestEntry(cfg, st, walk, t, i);
    FilesOwn(cfg, AfterScan(cfg, st, walk), t.requests, t.fileOuts, i);
    ThroughLinks(cfg, st, walk, t, t.requests[i].path);
  }

  lemma {:induction false} OwnResult(cfg: Config, st: PushState, walk: seq<Entry>, t: Trace, q: string)
    requires CleanPush(cfg, st, walk, t)
    requires Find(cfg, walk, q).Some? && Judge(cfg, st.store, Find(cfg, walk, q).value).Prepare?
    ensures var r := Judge(cfg, st.store, Find(cfg, walk, q).value).request;
            r.hashed.Some? &&
            CellAt(AfterLinks(cfg, st, walk, t), q) ==
            Cell(if HashSame(r) then Get(st.remote, q) else Some(RFile(r.hashed.value.hash)), Some(MetaOf(r)), Some(MetaOf(r)))
  {
    RequestsApart(cfg, st.store, walk, t.requests);
    var i := FoundRequest(cfg, st, walk, t, q);
    ApartLeavesAlone(t.requests, i);
    OwnResultAlone(cfg, st, walk, t, i);
  }

  /** A path that no request touches stays as it was, but for a symlink task. */
  lemma {:induction false} UntouchedResult(cfg: Config, st: PushState, walk: seq<Entry>, t: Trace, q: string)
    requires CleanRun(cfg, st, walk, t) && forall i :: 0 <= i < |t.requests| ==> !Touches(t.requests[i], q)
    requires Find(cfg, walk, q).Some? && !Judge(cfg, st.store, Find(cfg, walk, q).value).Prepare?
    ensures var verdict := Judge(cfg, st.store, Find(cfg, walk, q).value);
            CellAt(AfterLinks(cfg, st, walk, t), q) ==
            if verdict.MakeLink? then Cell(Some(RLink(verdict.task.hash)), Some(LinkMeta(verdict.task)), Some(LinkMeta(verdict.task)))
            else Cell(Get(st.remote, q), Get(st.store, q), Get(st.store, q))
  {
    CleanPhases(cfg, st, walk, t);
    FilesOther(cfg, AfterScan(cfg, st, walk), t.requests, t.fileOuts, q);
    if Judge(cfg, st.store, Find(cfg, walk, q).value).MakeLink? {
      TaskPathsDistinct(cfg, st, walk, t);
      FilesFlushed(cfg, st, walk, t, q);
      var i := FoundTask(cfg, st, walk, t, q);
      LinksFlushed(cfg, st, walk, t, q);
    } else {
      ThroughLinks(cfg, st, walk, t, q);
    }
  }

  /** A found path whose entry asks for no work. */
  lemma {:induction false} QuietResult(cfg: Config, st: PushState, walk: seq<Entry>, t: Trace, q: string)
    requires CleanPush(cfg, st, walk, t)
    requires Find(cfg, walk, q).Some? && !Judge(cfg, st.store, Find(cfg, walk, q).value).Prepare?
    ensures var verdict := Judge(cfg, st.store, Find(cfg, walk, q).value);
            CellAt(AfterLinks(cfg, st, walk, t), q) ==
            if verdict.MakeLink? then Cell(Some(RLink(verdict.task.hash)), Some(LinkMeta(verdict.task)), Some(LinkMeta(verdict.task)))
            else Cell(Get(st.remote, q), Get(st.store, q), Get(st.store, q))
  {
    var f := FoundIsInWalk(cfg, walk, q);
    forall i | 0 <= i < |t.requests| ensures !Touches(t.requests[i], q) {
      var e := RequestEntry(cfg, st, walk, t, i);
      assert e != f;
    }
    UntouchedResult(cfg, st, walk, t, q);
  }

  /** The record of a path that no marked entry bears, whatever names overlap and whatever went unanswered. */
  lemma {:induction false} UnseenRecordIs(cfg: Config, st: PushState, walk: seq<Entry>, t: Trace, q: string)
    requires CleanRun(cfg, st, walk, t) && Find(cfg, walk, q).None?
    ensures Get(After(cfg, st, walk, t).store, q) == FinalRecord(cfg, st.store, walk, q)
  {
    CleanPhases(cfg, st, walk, t);
    forall i | 0 <= i < |t.requests|
      ensures t.requests[i].path != q && (Asks(t.requests[i], q) ==> UnderOldBase(cfg, q))
    {
      var e := RequestEntry(cfg, st, walk, t, i);
      if Asks(t.requests[i], q) {
        OldNameUnderOldBase(cfg, walk[e]);
      }
    }
    ThroughLinks(cfg, st, walk, t, q);
    FilesUnborne(cfg, AfterScan(cfg, st, walk), t.requests, t.fileOuts, q);
    if !UnderOldBase(cfg, q) {
      FilesOther(cfg, AfterScan(cfg, st, walk), t.requests, t.fileOuts, q);
    }
    SeenIsFound(cfg, st.store, walk, q);
    EndAt(cfg, st, walk, t, q);
  }

  /** A path that no marked entry bears. */
  lemma {:induction false} UnseenResult(cfg: Config, st: PushState, walk: seq<Entry>, t: Trace, q: string)
    requires CleanPush(cfg, st, walk, t) && Find(cfg, walk, q).None?
    ensures var linked := CellAt(AfterLinks(cfg, st, walk, t), q);
            linked.mem == linked.record &&
            (Answered(st, t) || !UnderOldBase(cfg, q) ==> linked.node == if MovedAway(cfg, st.remote, st.store, walk, q) then None else Get(st.remote, q)) &&
            (linked.record == Get(st.store, q) || UnderOldBase(cfg, q)) &&
            (MovedAway(cfg, st.remote, st.store, walk, q) ==> UnderOldBase(cfg, q))
  {
    CleanPhases(cfg, st, walk, t);
    forall i | 0 <= i < |t.requests| ensures t.requests[i].path != q {
      var e := RequestEntry(cfg, st, walk, t, i);
    }
    ThroughLinks(cfg, st, walk, t, q);
    if i :| 0 <= i < |t.requests| && Asks(t.requests[i], q) {
      UnseenOld(cfg, st, walk, t, q, i);
    } else {
      FilesOther(cfg, AfterScan(cfg, st, walk), t.requests, t.fileOuts, q);
      NotMovedAway(cfg, st, walk, t, q);
    }
  }

  lemma {:induction false} UnseenOld(cfg: Config, st: PushState, walk: seq<Entry>, t: Trace, q: string, i: nat)
    requires CleanPush(cfg, st, walk, t) && i < |t.requests| && Asks(t.requests[i], q) && t.requests[i].path != q
    ensures var files := Files(cfg, AfterScan(cfg, st, walk), t.requests, t.fileOuts);
            !InFlight(files, q) && Get(files.mem, q) == Get(files.store, q) && UnderOldBase(cfg, q) &&
            (Answered(st, t) ==> Get(files.remote, q) == if MovedAway(cfg, st.remote, st.store, walk, q) then None else Get(st.remote, q))
  {
    CleanPhases(cfg, st, walk, t);
    RequestsApart(cfg, st.store, walk, t.requests);
    ApartLeavesAlone(t.requests, i);
    FilesOld(cfg, AfterScan(cfg, st, walk), t.requests, t.fileOuts, i);
    var e := RequestEntry(cfg, st, walk, t, i);
    OldNameUnderOldBase(cfg, walk[e]);
    MovedAwayIsMatch(cfg, st.remote, st.store, walk, q, e);
  }

  lemma {:induction false} OldNameUnderOldBase(cfg: Config, e: Entry)
    requires OldPath(cfg, e).Some?
    ensures UnderOldBase(cfg, OldPath(cfg, e).value)
  {
    OldRemotePathUnderOldBase(cfg.localBase + e.relative, cfg.migration.value);
  }

  /** With distinct old names one request decides. */
  lemma {:induction false} MovedAwayIsMatch(cfg: Config, remote: Remote, store: View, walk: seq<Entry>, q: string, e: nat)
    requires NonOverlap(cfg, store, walk) && e < |walk| && LooksBack(cfg, store, walk[e]) && OldPath(cfg, walk[e]) == Some(q)
    ensures MovedAway(cfg, remote, store, walk, q) <==>
            Judge(cfg, store, walk[e]).Prepare? && Match(Judge(cfg, store, walk[e]).request, Get(store, q), Get(remote, q))
  {
    forall i | 0 <= i < |walk| && Judge(cfg, store, walk[i]).Prepare? && Judge(cfg, store, walk[i]).request.oldPath == Some(q) &&
               Match(Judge(cfg, store, walk[i]).request, Get(store, q), Get(remote, q))
      ensures i == e
    {
      assert LooksBack(cfg, store, walk[i]) && OldPath(cfg, walk[i]) == Some(q);
    }
  }

  lemma {:induction false} NotMovedAway(cfg: Config, st: PushState, walk: seq<Entry>, t: Trace, q: string)
    requires ValidTrace(cfg, st, walk, t) && ProperWalk(walk)
    requires forall i :: 0 <= i < |t.requests| ==> !Asks(t.requests[i], q)
    ensures !MovedAway(cfg, st.remote, st.store, walk, q)
  {
    forall i | 0 <= i < |walk| && Judge(cfg, st.store, walk[i]).Prepare?
      ensures !Asks(Judge(cfg, st.store, walk[i]).request, q)
    {
      RequestOf(cfg, st.store, walk, i);
      ScanDistinct(cfg, st.store, walk);
      PermutationDistinct(t.requests, ScanAll(cfg, st.store, walk).requests);
      assert Judge(cfg, st.store, walk[i]).request in t.requests;
    }
  }

  /**
   The result of a push without failures is determined, path by path, by the tree and by the
   state before: no order of preparation, no batching and no flush point shows in it. An
   unanswered query can only leave a name of the old base on the server that would have been
   moved away.
   */
  lemma {:induction false} CleanPushIsDetermined(cfg: Config, st: PushState, walk: seq<Entry>, t: Trace, q: string)
    requires CleanPush(cfg, st, walk, t)
    ensures Get(After(cfg, st, walk, t).store, q) == FinalRecord(cfg, st.store, walk, q)
    ensures Answered(st, t) || Find(cfg, walk, q).Some? || !UnderOldBase(cfg, q) ==>
              Get(After(cfg, st, walk, t).remote, q) == FinalRemote(cfg, st.remote, st.store, walk, q)
  {
    SeenIsFound(cfg, st.store, walk, q);
    EndAt(cfg, st, walk, t, q);
    if Find(cfg, walk, q).None? {
      UnseenResult(cfg, st, walk, t, q);
    } else if Judge(cfg, st.store, Find(cfg, walk, q).value).Prepare? {
      OwnResult(cfg, st, walk, t, q);
    } else {
      QuietResult(cfg, st, walk, t, q);
    }
  }

  /** Without a migration the server is asked nothing, so nothing goes unanswered and no names overlap. */
  lemma {:induction false} NoMigrationAsksNothing(cfg: Config, st: PushState, walk: seq<Entry>, t: Trace)
    requires cfg.migration.None? && ValidTrace(cfg, st, walk, t) && ProperWalk(walk)
    ensures Answered(st, t) && NonOverlap(cfg, st.store, walk)
  {
    forall i | 0 <= i < |t.requests| ensures t.requests[i].oldPath.None? {
      var e := RequestEntry(cfg, st, walk, t, i);
    }
  }
}
