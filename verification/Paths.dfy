/**
 Remote paths are strings; a path below a local root is its list of components. This is the
 translation between the two, in both directions, and the mapping of a moved sync root.
 */
module Paths {
  import opened Prelude

  /** Path components as the operating system reports them; `..` stands for itself. */
  type Components = seq<string>

  /** What `Path::components` keeps: no empty component, no `.` inside a path. */
  predicate IsComponent(name: string) {
    name != "" && name != "." && '/' !in name
  }

  predicate AllComponents(names: Components) {
    forall i :: 0 <= i < |names| ==> IsComponent(names[i])
  }

  function Join(names: Components): string {
    if names == [] then ""
    else if |names| == 1 then names[0]
    else names[0] + "/" + Join(names[1..])
  }

  /** The pieces between slashes; one more than there are slashes. */
  function Split(s: string): (pieces: Components)
    ensures |pieces| > 0
  {
    if s == "" then [""]
    else if s[0] == '/' then [""] + Split(s[1..])
    else var rest := Split(s[1..]); [[s[0]] + rest[0]] + rest[1..]
  }

  function Kept(pieces: Components): Components {
    if pieces == [] then []
    else if pieces[0] != "" && pieces[0] != "." then [pieces[0]] + Kept(pieces[1..])
    else Kept(pieces[1..])
  }

  function TrimEndSlashes(s: string): string {
    if s != "" && s[|s| - 1] == '/' then TrimEndSlashes(s[..|s| - 1]) else s
  }

  function TrimStartSlashes(s: string): string {
    if s != "" && s[0] == '/' then TrimStartSlashes(s[1..]) else s
  }

  /** `compute_remote_path`. */
  function ComputeRemotePath(relative: Components, remoteBase: string): string {
    TrimEndSlashes(remoteBase) + "/" + Join(Kept(relative))
  }

  /** The part of a remote path that `compute_local_path` joins to the local base. */
  function RelativePart(remotePath: string, remoteBase: string): string {
    var base := TrimEndSlashes(remoteBase);
    TrimStartSlashes(if IsPrefix(base, remotePath) then remotePath[|base|..] else remotePath)
  }

  /** `compute_local_path`, as the components below the local base. */
  function ComputeLocalPath(remotePath: string, remoteBase: string): Components {
    Kept(Split(RelativePart(remotePath, remoteBase)))
  }

  /** `is_under_remote_base`. */
  predicate IsUnderRemoteBase(path: string, remoteBase: string) {
    var base := TrimEndSlashes(remoteBase);
    path == base || IsPrefix(base + "/", path)
  }

  // ---------------------------------------------------------------------------------------
  // Splitting and joining
  // ---------------------------------------------------------------------------------------

  lemma {:induction false} SplitOfName(name: string)
    requires '/' !in name
    ensures Split(name) == [name]
  {
    if name != "" {
      assert name[0] in name;
      forall c | c in name[1..] ensures c in name { }
      SplitOfName(name[1..]);
      assert [name[0]] + name[1..] == name;
    }
  }

  lemma {:induction false} SplitOfNameSlash(name: string, rest: string)
    requires '/' !in name
    ensures Split(name + "/" + rest) == [name] + Split(rest)
  {
    if name == "" {
      assert name + "/" + rest == "/" + rest && ("/" + rest)[1..] == rest;
    } else {
      assert name[0] in name;
      forall c | c in name[1..] ensures c in name { }
      SplitOfNameSlash(name[1..], rest);
      assert (name + "/" + rest)[1..] == name[1..] + "/" + rest;
      assert [name[0]] + name[1..] == name;
    }
  }

  lemma {:induction false} SplitOfJoin(names: Components)
    requires names != [] && AllComponents(names)
    ensures Split(Join(names)) == names
  {
    if |names| == 1 {
      SplitOfName(names[0]);
    } else {
      var rest := names[1..];
      SplitOfJoin(rest);
      SplitOfNameSlash(names[0], Join(rest));
      assert Join(names) == names[0] + "/" + Join(rest) && [names[0]] + rest == names;
    }
  }

  lemma {:induction false} JoinOfSplit(s: string)
    ensures Join(Split(s)) == s
  {
    if s != "" {
      JoinOfSplit(s[1..]);
      var rest := Split(s[1..]);
      if s[0] == '/' {
        assert Split(s)[1..] == rest;
        assert [] + "/" + s[1..] == s;
      } else {
        assert Split(s)[1..] == rest[1..];
        assert [s[0]] + s[1..] == s;
        if |rest| > 1 {
          assert [s[0]] + (rest[0] + "/" + Join(rest[1..])) == ([s[0]] + rest[0]) + "/" + Join(rest[1..]);
        }
      }
    }
  }

  lemma {:induction false} SplitHasNoSlash(s: string)
    ensures forall i :: 0 <= i < |Split(s)| ==> '/' !in Split(s)[i]
  {
    if s != "" {
      SplitHasNoSlash(s[1..]);
    }
  }

  lemma {:induction false} KeptOfComponents(names: Components)
    requires AllComponents(names)
    ensures Kept(names) == names
  {
    if names != [] {
      KeptOfComponents(names[1..]);
    }
  }

  lemma {:induction false} KeptAreComponents(pieces: Components)
    requires forall i :: 0 <= i < |pieces| ==> '/' !in pieces[i]
    ensures AllComponents(Kept(pieces)) && |Kept(pieces)| <= |pieces|
    ensures |Kept(pieces)| == |pieces| ==> Kept(pieces) == pieces
  {
    if pieces != [] {
      KeptAreComponents(pieces[1..]);
    }
  }

  lemma {:induction false} TrimStartOfComponents(names: Components)
    requires AllComponents(names)
    ensures TrimStartSlashes("/" + Join(names)) == Join(names)
  {
    var joined := Join(names);
    assert ("/" + joined)[1..] == joined;
    if names != [] {
      assert IsComponent(names[0]) && joined[0] == names[0][0] && names[0][0] in names[0];
    }
  }

  lemma {:induction false} SplitCons(c: char, s: string)
    ensures Split([c] + s) == if c == '/' then [""] + Split(s) else [[c] + Split(s)[0]] + Split(s)[1..]
  {
    assert ([c] + s)[1..] == s;
  }

  lemma {:induction false} FirstOfBoth(a: Components, b: Components, c: char)
    requires a != []
    ensures [[c] + (a + b)[0]] + (a + b)[1..] == ([[c] + a[0]] + a[1..]) + b
    ensures [""] + (a + b) == ([""] + a) + b
  {
  }

  lemma {:induction false} SplitAtSlash(a: string, b: string)
    ensures Split(a + "/" + b) == Split(a) + Split(b)
  {
    if a == "" {
      assert a + "/" + b == "/" + b;
      SplitCons('/', b);
    } else {
      var c, tail := a[0], a[1..];
      SplitAtSlash(tail, b);
      SplitCons(c, tail);
      SplitCons(c, tail + "/" + b);
      FirstOfBoth(Split(tail), Split(b), c);
      assert a == [c] + tail && a + "/" + b == [c] + (tail + "/" + b);
    }
  }

  lemma {:induction false} KeptCons(name: string, pieces: Components)
    ensures Kept([name] + pieces) == if name != "" && name != "." then [name] + Kept(pieces) else Kept(pieces)
  {
    assert ([name] + pieces)[1..] == pieces;
  }

  lemma {:induction false} KeptAppend(a: Components, b: Components)
    ensures Kept(a + b) == Kept(a) + Kept(b)
  {
    if a == [] {
      assert a + b == b;
    } else {
      var name, rest := a[0], a[1..];
      KeptAppend(rest, b);
      KeptCons(name, rest);
      KeptCons(name, rest + b);
      assert a == [name] + rest && a + b == [name] + (rest + b);
      assert ([name] + Kept(rest)) + Kept(b) == [name] + (Kept(rest) + Kept(b));
    }
  }

  /** The components of a remote name are those of the base and those of the file. */
  lemma {:induction false} ComponentsOfRemote(names: Components, remoteBase: string)
    requires AllComponents(names) && names != []
    ensures Kept(Split(ComputeRemotePath(names, remoteBase))) == Kept(Split(TrimEndSlashes(remoteBase))) + names
  {
    KeptOfComponents(names);
    SplitAtSlash(TrimEndSlashes(remoteBase), Join(names));
    SplitOfJoin(names);
    KeptAppend(Split(TrimEndSlashes(remoteBase)), names);
  }

  // ---------------------------------------------------------------------------------------
  // Round trips
  // ---------------------------------------------------------------------------------------

  /** From disk to the server and back: the same file. */
  lemma {:induction false} LocalOfRemote(names: Components, remoteBase: string)
    requires AllComponents(names)
    ensures ComputeLocalPath(ComputeRemotePath(names, remoteBase), remoteBase) == names
  {
    var base := TrimEndSlashes(remoteBase);
    var remotePath := ComputeRemotePath(names, remoteBase);
    KeptOfComponents(names);
    assert remotePath[|base|..] == "/" + Join(names);
    assert IsPrefix(base, remotePath);
    TrimStartOfComponents(names);
    if names == [] {
      assert Split("") == [""] && Kept([""]) == Kept([""][1..]);
    } else {
      SplitOfJoin(names);
    }
  }

  /** Different files have different remote names. */
  lemma {:induction false} RemotePathInjective(a: Components, b: Components, remoteBase: string)
    requires AllComponents(a) && AllComponents(b)
    requires ComputeRemotePath(a, remoteBase) == ComputeRemotePath(b, remoteBase)
    ensures a == b
  {
    LocalOfRemote(a, remoteBase);
    LocalOfRemote(b, remoteBase);
  }

  /** The trimmed base, a slash, and components without empty ones and without `.`. */
  predicate Canonical(remotePath: string, remoteBase: string) {
    var base := TrimEndSlashes(remoteBase) + "/";
    IsPrefix(base, remotePath) &&
    (remotePath == base || AllComponents(Split(remotePath[|base|..])))
  }

  lemma {:induction false} LocalIsComponents(remotePath: string, remoteBase: string)
    ensures AllComponents(ComputeLocalPath(remotePath, remoteBase))
  {
    SplitHasNoSlash(RelativePart(remotePath, remoteBase));
    KeptAreComponents(Split(RelativePart(remotePath, remoteBase)));
  }

  lemma {:induction false} CanonicalIsRemote(remotePath: string, remoteBase: string) returns (names: Components)
    requires Canonical(remotePath, remoteBase)
    ensures AllComponents(names) && ComputeRemotePath(names, remoteBase) == remotePath
  {
    var base := TrimEndSlashes(remoteBase) + "/";
    var rest := remotePath[|base|..];
    names := if rest == "" then [] else Split(rest);
    assert remotePath == base + rest;
    JoinOfSplit(rest);
    KeptOfComponents(names);
  }

  lemma {:induction false} RemoteIsCanonical(names: Components, remoteBase: string)
    requires AllComponents(names)
    ensures Canonical(ComputeRemotePath(names, remoteBase), remoteBase)
  {
    var base := TrimEndSlashes(remoteBase) + "/";
    KeptOfComponents(names);
    assert (base + Join(names))[|base|..] == Join(names);
    if names != [] {
      SplitOfJoin(names);
    }
  }

  /**
   From the server to disk and back gives the same remote path if and only if the path is
   canonical below the base. A foreign path does not come back: `compute_local_path` lets it
   through, and the scan finds it again under another remote name.
   */
  lemma {:induction false} RemoteOfLocalIffCanonical(remotePath: string, remoteBase: string)
    ensures ComputeRemotePath(ComputeLocalPath(remotePath, remoteBase), remoteBase) == remotePath
            <==> Canonical(remotePath, remoteBase)
  {
    LocalIsComponents(remotePath, remoteBase);
    RemoteIsCanonical(ComputeLocalPath(remotePath, remoteBase), remoteBase);
    if Canonical(remotePath, remoteBase) {
      var names := CanonicalIsRemote(remotePath, remoteBase);
      LocalOfRemote(names, remoteBase);
    }
  }

  /** A sibling whose name begins with the base's name ends up inside the synced folder, and collides. */
  lemma {:induction false} ForeignPathCollides()
    ensures ComputeLocalPath("/docs2/x", "/docs/") == ComputeLocalPath("/docs/2/x", "/docs/") == ["2", "x"]
    ensures !Canonical("/docs2/x", "/docs/") && Canonical("/docs/2/x", "/docs/")
  {
    assert "/docs/"[..5] == "/docs";
    assert TrimEndSlashes("/docs") == "/docs";
    assert TrimEndSlashes("/docs/") == "/docs";
    assert "/docs2/x"[5..] == "2/x" && "/docs/2/x"[5..] == "/2/x" && "/2/x"[1..] == "2/x";
    assert IsPrefix("/docs", "/docs2/x") && IsPrefix("/docs", "/docs/2/x");
    assert TrimStartSlashes("2/x") == "2/x" && TrimStartSlashes("/2/x") == "2/x";
    SplitOfJoin(["2", "x"]);
    assert ["2", "x"][1..] == ["x"];
    assert Join(["2", "x"]) == "2/x" by {
      assert Join(["x"]) == "x";
    }
    KeptOfComponents(["2", "x"]);
    assert "/docs2/x"[5] == '2';
    assert "/docs/2/x"[6..] == "2/x" && IsPrefix("/docs/", "/docs/2/x");
  }

  /** A path that does not begin like the base lands whole below the local base, one that does without that beginning. */
  lemma {:induction false} WhereAnyPathLands(names: Components, before: string, remoteBase: string)
    requires AllComponents(names) && TrimEndSlashes(remoteBase) == before
    ensures !IsPrefix(before, "/" + Join(names)) ==> ComputeLocalPath("/" + Join(names), remoteBase) == names
    ensures names != [] ==> ComputeLocalPath(before + Join(names), remoteBase) == names
  {
    TrimStartOfComponents(names);
    KeptOfComponents(names);
    if names == [] {
      assert Split("") == [""] && Kept([""]) == Kept([""][1..]);
    } else {
      SplitOfJoin(names);
      assert IsComponent(names[0]) && Join(names)[0] == names[0][0] && names[0][0] in names[0];
      assert (before + Join(names))[|before|..] == Join(names) && IsPrefix(before, before + Join(names));
    }
  }

  // ---------------------------------------------------------------------------------------
  // Names from before
  // ---------------------------------------------------------------------------------------

  function JoinWith(names: Components, separator: char): string {
    if names == [] then ""
    else if |names| == 1 then names[0]
    else names[0] + [separator] + JoinWith(names[1..], separator)
  }

  /** `compute_legacy_separator_remote_path`, for the platform's own separator. */
  function LegacySeparatorPath(names: Components, remoteBase: string, separator: char): Option<string> {
    var legacy := TrimEndSlashes(remoteBase) + "/" + JoinWith(names, separator);
    if legacy != ComputeRemotePath(names, remoteBase) then Some(legacy) else None
  }

  /** Where the separator is the slash there are no such names. */
  lemma {:induction false} NoLegacyNamesWithSlash(names: Components, remoteBase: string)
    requires AllComponents(names)
    ensures LegacySeparatorPath(names, remoteBase, '/') == None
  {
    KeptOfComponents(names);
    JoinWithSlash(names);
  }

  lemma {:induction false} JoinWithSlash(names: Components)
    ensures JoinWith(names, '/') == Join(names)
  {
    if |names| > 1 {
      JoinWithSlash(names[1..]);
    }
  }

  /** With any other separator the files in subfolders have one, and no others. */
  lemma {:induction false} LegacyNameInSubfolders(names: Components, remoteBase: string, separator: char)
    requires AllComponents(names) && separator != '/'
    ensures LegacySeparatorPath(names, remoteBase, separator) ==
            if |names| < 2 then None else Some(TrimEndSlashes(remoteBase) + "/" + JoinWith(names, separator))
  {
    KeptOfComponents(names);
    if |names| >= 2 {
      var base := TrimEndSlashes(remoteBase) + "/";
      assert Join(names)[|names[0]|] == '/' && JoinWith(names, separator)[|names[0]|] == separator;
      assert (base + Join(names))[|base| + |names[0]|] == '/';
    }
  }

  /** A changed sync root, local paths as components. */
  datatype RootMove = RootMove(oldRemote: string, newRemote: string, oldLocal: Components, newLocal: Components)

  /** `Path::file_name` of a local root: none for the root of the file system and for `..`. */
  predicate HasName(names: Components) {
    names != [] && names[|names| - 1] != ".."
  }

  /** `migration_old_remote_path_for_entry`. */
  function OldRemotePath(entry: Components, move: RootMove): Option<string> {
    if IsPrefix(move.oldLocal, entry) then
      Some(ComputeRemotePath(entry[|move.oldLocal|..], move.oldRemote))
    else if IsPrefix(move.newLocal, entry) && HasName(move.oldLocal) then
      var relative := entry[|move.newLocal|..];
      if relative != [] && relative[0] == move.oldLocal[|move.oldLocal| - 1] then
        Some(ComputeRemotePath(relative[1..], move.oldRemote))
      else None
    else None
  }

  /** Whatever became of the roots, a file below the old local root has the name it had there. */
  lemma {:induction false} OldNameBelowOldRoot(x: Components, move: RootMove)
    ensures OldRemotePath(move.oldLocal + x, move) == Some(ComputeRemotePath(x, move.oldRemote))
  {
    assert (move.oldLocal + x)[|move.oldLocal|..] == x && (move.oldLocal + x)[..|move.oldLocal|] == move.oldLocal;
  }

  /** So has a file below a folder of the old root's name in the new root, if it is not below the old root itself. */
  lemma {:induction false} OldNameBelowNamesake(x: Components, name: string, move: RootMove)
    requires move.oldLocal != [] && name == move.oldLocal[|move.oldLocal| - 1] && name != ".."
    requires !IsPrefix(move.oldLocal, move.newLocal + [name] + x)
    ensures OldRemotePath(move.newLocal + [name] + x, move) == Some(ComputeRemotePath(x, move.oldRemote))
  {
    var entry := move.newLocal + [name] + x;
    assert entry == move.newLocal + ([name] + x) && entry[|move.newLocal|..] == [name] + x && entry[..|move.newLocal|] == move.newLocal;
    assert ([name] + x)[1..] == x;
  }

  /** And no other entry has an old name. */
  lemma {:induction false} NoOldNameElsewhere(entry: Components, move: RootMove)
    ensures OldRemotePath(entry, move).None? <==>
            !IsPrefix(move.oldLocal, entry) &&
            (move.oldLocal == [] || move.oldLocal[|move.oldLocal| - 1] == ".." ||
             !IsPrefix(move.newLocal + [move.oldLocal[|move.oldLocal| - 1]], entry))
  {
    if move.oldLocal != [] {
      PrefixAndNext(move.newLocal, move.oldLocal[|move.oldLocal| - 1], entry);
    }
  }

  lemma {:induction false} PrefixAndNext<T>(front: seq<T>, x: T, s: seq<T>)
    ensures IsPrefix(front + [x], s) <==> IsPrefix(front, s) && |s| > |front| && s[|front|] == x
  {
    if IsPrefix(front + [x], s) {
      assert s[..|front|] == s[..|front| + 1][..|front|] && s[|front|] == s[..|front| + 1][|front|];
    }
    if IsPrefix(front, s) && |s| > |front| {
      assert s[..|front| + 1] == s[..|front|] + [s[|front|]];
    }
  }

  /** An old remote name always lies under the old remote base. */
  lemma {:induction false} OldRemotePathUnderOldBase(entry: Components, move: RootMove)
    requires OldRemotePath(entry, move).Some?
    ensures IsUnderRemoteBase(OldRemotePath(entry, move).value, move.oldRemote)
  {
  }

  /** What of an entry's path is kept under the old remote base. */
  function OldRelative(entry: Components, move: RootMove): (relative: Components)
    requires OldRemotePath(entry, move).Some?
    ensures AllComponents(entry) ==> AllComponents(relative)
    ensures OldRemotePath(entry, move).value == ComputeRemotePath(relative, move.oldRemote)
  {
    if IsPrefix(move.oldLocal, entry) then entry[|move.oldLocal|..] else entry[|move.newLocal|..][1..]
  }

  lemma {:induction false} PrefixesNest<T>(a: seq<T>, b: seq<T>, s: seq<T>)
    ensures IsPrefix(a, s) && IsPrefix(b, s) && |a| <= |b| ==> IsPrefix(a, b)
    ensures IsPrefix(a, b) && IsPrefix(b, s) ==> IsPrefix(a, s)
  {
    if |a| <= |b| <= |s| {
      assert s[..|b|][..|a|] == s[..|a|];
    }
  }

  /** One entry below the old root itself, the other below a folder of its name in the new root. */
  lemma {:induction false} TwoRules(inner: Components, outer: Components, x: Components, move: RootMove)
    requires move.oldLocal != [] && inner == move.oldLocal + x && IsPrefix(move.newLocal, inner)
    requires outer == move.newLocal + [move.oldLocal[|move.oldLocal| - 1]] + x && !IsPrefix(move.oldLocal, outer)
    ensures IsPrefix(move.newLocal, move.oldLocal) && |move.oldLocal| >= |move.newLocal| + 2
  {
    var middle := move.newLocal + [move.oldLocal[|move.oldLocal| - 1]];
    PrefixesNest(move.oldLocal, move.newLocal, inner);
    PrefixesNest(move.newLocal, move.oldLocal, inner);
    PrefixesNest(move.oldLocal, move.newLocal, outer);
    assert IsPrefix(move.newLocal, outer) && IsPrefix(middle, outer);
    assert |move.oldLocal| == |middle| && IsPrefix(move.newLocal, move.oldLocal) ==> move.oldLocal == middle;
  }

  /** A remote name is under a base if it is the base without its last slashes, or that followed by a slash. */
  lemma {:induction false} UnderRemoteBaseIff(name: string, remoteBase: string)
    ensures IsUnderRemoteBase(TrimEndSlashes(remoteBase) + name, remoteBase) <==> name == "" || name[0] == '/'
  {
    var base := TrimEndSlashes(remoteBase);
    assert |base + name| > |base| ==> (base + name)[|base|] == name[0];
    if name != "" && name[0] == '/' {
      assert (base + name)[..|base| + 1] == base + "/";
    }
    if IsPrefix(base + "/", base + name) {
      assert (base + name)[..|base| + 1][|base|] == '/';
    }
    assert base + name == base ==> |name| == 0;
  }

  /** Trimming takes every slash at the end and nothing else. */
  lemma {:induction false} TrimEndsBeforeSlashes(s: string)
    ensures IsPrefix(TrimEndSlashes(s), s)
    ensures forall i :: |TrimEndSlashes(s)| <= i < |s| ==> s[i] == '/'
    ensures TrimEndSlashes(s) != "" ==> TrimEndSlashes(s)[|TrimEndSlashes(s)| - 1] != '/'
  {
    if s != "" && s[|s| - 1] == '/' {
      TrimEndsBeforeSlashes(s[..|s| - 1]);
    }
  }

  /**
   Two entries of the new root share an old name only if the old root lies two or more levels
   inside the new one.
   */
  lemma {:induction false} SharedOldNameNeedsNesting(a: Components, b: Components, move: RootMove)
    requires AllComponents(a) && AllComponents(b) && a != b
    requires IsPrefix(move.newLocal, a) && IsPrefix(move.newLocal, b)
    requires OldRemotePath(a, move).Some? && OldRemotePath(a, move) == OldRemotePath(b, move)
    ensures IsPrefix(move.newLocal, move.oldLocal) && |move.oldLocal| >= |move.newLocal| + 2
  {
    var x := OldRelative(a, move);
    RemotePathInjective(x, OldRelative(b, move), move.oldRemote);
    OldRelativeRebuilds(a, move);
    OldRelativeRebuilds(b, move);
    if IsPrefix(move.oldLocal, a) {
      TwoRules(a, b, x, move);
    } else {
      TwoRules(b, a, x, move);
    }
  }

  lemma {:induction false} OldRelativeRebuilds(entry: Components, move: RootMove)
    requires OldRemotePath(entry, move).Some?
    ensures IsPrefix(move.oldLocal, entry) ==> entry == move.oldLocal + OldRelative(entry, move)
    ensures !IsPrefix(move.oldLocal, entry) ==>
              move.oldLocal != [] && entry == move.newLocal + [move.oldLocal[|move.oldLocal| - 1]] + OldRelative(entry, move)
  {
  }

  /** Synced folder moved to its parent under the same remote base: one file's old name is its sibling's name. */
  lemma {:induction false} ParentRootOverlaps()
    ensures OldRemotePath(["home", "docs", "x"], RootMove("/docs/", "/docs/", ["home", "docs"], ["home"])) ==
            Some(ComputeRemotePath(["x"], "/docs/"))
  {
    assert ["home", "docs", "x"][..2] == ["home", "docs"];
    assert ["home", "docs", "x"][2..] == ["x"];
  }

  /** Synced folder moved two levels up: a file inside it and one in a folder of its name share an old name. */
  lemma {:induction false} TwoLevelsUpShareName()
    ensures var move := RootMove("/o/", "/n/", ["a", "b", "c"], ["a"]);
            OldRemotePath(["a", "b", "c", "x"], move) == OldRemotePath(["a", "c", "x"], move) == Some(ComputeRemotePath(["x"], "/o/"))
  {
    assert ["a", "b", "c", "x"][..3] == ["a", "b", "c"] && ["a", "b", "c", "x"][3..] == ["x"];
    assert ["a", "c", "x"][1] == "c" && ["a", "b", "c"][1] == "b" && "b"[0] != "c"[0];
    assert ["a", "c", "x"][..3] != ["a", "b", "c"];
    assert ["a", "c", "x"][..1] == ["a"] && ["a", "c", "x"][1..] == ["c", "x"] && ["c", "x"][1..] == ["x"];
  }
}
