/**
 Nested relationships: which part of the remote tree (and of the local one) belongs to a
 more specific relationship, and why every covered path has exactly one owner.
 */
module Hierarchy {
  import opened Prelude

  /** A local path is its sequence of components; a remote path is a string. */
  datatype Relationship = Relationship(
    id: string,
    connectionId: string,
    remotePath: string,
    localPath: seq<string>)

  // ---------------------------------------------------------------------------------------
  // The specification: territory is a prefix, strings and component lists alike
  // ---------------------------------------------------------------------------------------

  /** The roots lying strictly inside `root`, in the order of `others`. */
  function RootsInside<T(==)>(root: seq<T>, others: seq<seq<T>>): seq<seq<T>> {
    if others == [] then []
    else
      var rest := RootsInside(root, others[1..]);
      if IsPrefix(root, others[0]) && others[0] != root then [others[0]] + rest else rest
  }

  predicate InAny<T(==)>(path: seq<T>, exclusions: seq<seq<T>>) {
    exists i :: 0 <= i < |exclusions| && IsPrefix(exclusions[i], path)
  }

  /** `roots[i]` covers the path and no root strictly inside it claims the path. */
  predicate Owns<T(==)>(roots: seq<seq<T>>, i: nat, path: seq<T>)
    requires i < |roots|
  {
    IsPrefix(roots[i], path) && !InAny(path, RootsInside(roots[i], roots))
  }

  predicate Covered<T(==)>(roots: seq<seq<T>>, path: seq<T>) {
    exists i :: 0 <= i < |roots| && IsPrefix(roots[i], path)
  }

  lemma {:induction false} RootsInsideMembers<T>(root: seq<T>, others: seq<seq<T>>, r: seq<T>)
    ensures r in RootsInside(root, others) <==> r in others && IsPrefix(root, r) && r != root
  {
    if others != [] {
      RootsInsideMembers(root, others[1..], r);
      assert r in others <==> r == others[0] || r in others[1..];
    }
  }

  /** Owning a path means being the longest root that covers it. */
  lemma {:induction false} OwnsIffLongest<T>(roots: seq<seq<T>>, i: nat, path: seq<T>)
    requires i < |roots|
    ensures Owns(roots, i, path) <==>
            IsPrefix(roots[i], path) &&
            forall j :: 0 <= j < |roots| && IsPrefix(roots[j], path) ==> |roots[j]| <= |roots[i]|
  {
    var inside := RootsInside(roots[i], roots);
    if IsPrefix(roots[i], path) {
      forall j | 0 <= j < |roots| && IsPrefix(roots[j], path)
        ensures roots[j] in inside <==> |roots[j]| > |roots[i]|
      {
        RootsInsideMembers(roots[i], roots, roots[j]);
        if |roots[j]| >= |roots[i]| {
          assert roots[j][..|roots[i]|] == path[..|roots[j]|][..|roots[i]|] == path[..|roots[i]|];
        }
      }
      if k :| 0 <= k < |inside| && IsPrefix(inside[k], path) {
        RootsInsideMembers(roots[i], roots, inside[k]);
        assert inside[k] in roots;
      }
    }
  }

  lemma {:induction false} LongestCoverExists<T>(roots: seq<seq<T>>, path: seq<T>) returns (best: nat)
    requires Covered(roots, path)
    ensures best < |roots| && IsPrefix(roots[best], path)
    ensures forall j :: 0 <= j < |roots| && IsPrefix(roots[j], path) ==> |roots[j]| <= |roots[best]|
    decreases |roots|
  {
    var n := |roots| - 1;
    var front := roots[..n];
    if Covered(front, path) {
      best := LongestCoverExists(front, path);
      assert roots[best] == front[best];
      assert forall j :: 0 <= j < n ==> roots[j] == front[j];
      if IsPrefix(roots[n], path) && |roots[n]| > |roots[best]| {
        best := n;
      }
    } else {
      best := n;
      assert forall j :: 0 <= j < n ==> roots[j] == front[j];
    }
  }

  /** Every covered path has an owner, and the owner's root is the longest that covers it. */
  lemma {:induction false} CoveredPathHasOwner<T>(roots: seq<seq<T>>, path: seq<T>) returns (owner: nat)
    requires Covered(roots, path)
    ensures owner < |roots| && Owns(roots, owner, path)
    ensures forall j :: 0 <= j < |roots| && IsPrefix(roots[j], path) ==> |roots[j]| <= |roots[owner]|
  {
    owner := LongestCoverExists(roots, path);
    OwnsIffLongest(roots, owner, path);
  }

  ghost predicate UniqueOwner<T(!new)>(roots: seq<seq<T>>) {
    forall path: seq<T>, i, j ::
      0 <= i < |roots| && 0 <= j < |roots| && Owns(roots, i, path) && Owns(roots, j, path) ==> i == j
  }

  /** No path has two owners exactly when no two relationships share a root. */
  lemma {:induction false} UniqueOwnerIffRootsDistinct<T(!new)>(roots: seq<seq<T>>)
    ensures UniqueOwner(roots) <==> Distinct(roots)
  {
    if Distinct(roots) {
      forall path: seq<T>, i, j | 0 <= i < |roots| && 0 <= j < |roots| && Owns(roots, i, path) && Owns(roots, j, path)
        ensures i == j
      {
        OwnsIffLongest(roots, i, path);
        OwnsIffLongest(roots, j, path);
        assert roots[i] == path[..|roots[i]|] == path[..|roots[j]|] == roots[j];
      }
    }
    if UniqueOwner(roots) {
      forall i, j | 0 <= i < j < |roots|
        ensures roots[i] != roots[j]
      {
        if roots[i] == roots[j] {
          var path := roots[i];
          OwnsIffLongest(roots, i, path);
          OwnsIffLongest(roots, j, path);
          assert Owns(roots, i, path) && Owns(roots, j, path);
        }
      }
    }
  }

  // ---------------------------------------------------------------------------------------
  // The functions of hierarchy.rs, for remote roots and for local ones
  // ---------------------------------------------------------------------------------------

  function RemoteRoot(r: Relationship): string { r.remotePath }

  function LocalRoot(r: Relationship): seq<string> { r.localPath }

  /** The roots of the other relationships on the same connection, in list order. */
  function PeerRoots<T>(self: Relationship, all: seq<Relationship>, rootOf: Relationship -> seq<T>): seq<seq<T>> {
    if all == [] then []
    else
      var rest := PeerRoots(self, all[1..], rootOf);
      if all[0].id != self.id && all[0].connectionId == self.connectionId then [rootOf(all[0])] + rest else rest
  }

  /** What `child_exclusions` and `child_local_exclusions` return. */
  function Exclusions<T(==)>(self: Relationship, all: seq<Relationship>, rootOf: Relationship -> seq<T>): seq<seq<T>> {
    RootsInside(rootOf(self), PeerRoots(self, all, rootOf))
  }

  lemma {:induction false} ExclusionsSnoc<T>(self: Relationship, all: seq<Relationship>, rootOf: Relationship -> seq<T>, r: Relationship)
    ensures Exclusions(self, all + [r], rootOf) == Exclusions(self, all, rootOf) +
            (if r.id != self.id && r.connectionId == self.connectionId &&
                IsPrefix(rootOf(self), rootOf(r)) && rootOf(r) != rootOf(self) then [rootOf(r)] else [])
  {
    if all == [] {
      assert all + [r] == [r] && [r][1..] == [];
      assert PeerRoots(self, [r], rootOf) ==
             if r.id != self.id && r.connectionId == self.connectionId then [rootOf(r)] + PeerRoots(self, [], rootOf) else [];
    } else {
      ExclusionsSnoc(self, all[1..], rootOf, r);
      assert (all + [r])[0] == all[0] && (all + [r])[1..] == all[1..] + [r];
      var here := [rootOf(all[0])];
      var rest := PeerRoots(self, all[1..], rootOf);
      assert (here + rest)[1..] == rest;
      var rest' := PeerRoots(self, all[1..] + [r], rootOf);
      assert (here + rest')[1..] == rest';
    }
  }

  method ChildExclusions(self: Relationship, all: seq<Relationship>) returns (exclusions: seq<string>)
    ensures exclusions == Exclusions(self, all, RemoteRoot)
  {
    exclusions := [];
    for n := 0 to |all|
      invariant exclusions == Exclusions(self, all[..n], RemoteRoot)
    {
      var other := all[n];
      assert all[..n + 1] == all[..n] + [other];
      ExclusionsSnoc(self, all[..n], RemoteRoot, other);
      if other.id == self.id {
        continue;
      }
      if other.connectionId != self.connectionId {
        continue;
      }
      if IsPrefix(self.remotePath, other.remotePath) && other.remotePath != self.remotePath {
        exclusions := exclusions + [other.remotePath];
      }
    }
    assert all[..|all|] == all;
  }

  method ChildLocalExclusions(self: Relationship, all: seq<Relationship>) returns (exclusions: seq<seq<string>>)
    ensures exclusions == Exclusions(self, all, LocalRoot)
  {
    exclusions := [];
    for n := 0 to |all|
      invariant exclusions == Exclusions(self, all[..n], LocalRoot)
    {
      var other := all[n];
      assert all[..n + 1] == all[..n] + [other];
      ExclusionsSnoc(self, all[..n], LocalRoot, other);
      if other.id == self.id {
        continue;
      }
      if other.connectionId != self.connectionId {
        continue;
      }
      if other.localPath != self.localPath && IsPrefix(self.localPath, other.localPath) {
        exclusions := exclusions + [other.localPath];
      }
    }
    assert all[..|all|] == all;
  }

  /** `is_excluded_by_child` on strings, `is_local_excluded_by_child` on component lists. */
  predicate IsExcludedByChild<T(==)>(path: seq<T>, exclusions: seq<seq<T>>) {
    InAny(path, exclusions)
  }

  /** The relationship covers the path and leaves it to no child. */
  predicate Handles<T(==)>(self: Relationship, all: seq<Relationship>, rootOf: Relationship -> seq<T>, path: seq<T>) {
    IsPrefix(rootOf(self), path) && !IsExcludedByChild(path, Exclusions(self, all, rootOf))
  }

  // ---------------------------------------------------------------------------------------
  // Unique ownership
  // ---------------------------------------------------------------------------------------

  /** One connection, one id per relationship. */
  ghost predicate OneConnection(all: seq<Relationship>) {
    forall i, j :: 0 <= i < j < |all| ==> all[i].id != all[j].id && all[i].connectionId == all[j].connectionId
  }

  ghost predicate DistinctRoots<T>(all: seq<Relationship>, rootOf: Relationship -> seq<T>) {
    forall i, j :: 0 <= i < j < |all| ==> rootOf(all[i]) != rootOf(all[j])
  }

  function Roots<T>(all: seq<Relationship>, rootOf: Relationship -> seq<T>): (roots: seq<seq<T>>) {
    seq(|all|, i requires 0 <= i < |all| => rootOf(all[i]))
  }

  lemma {:induction false} PeerRootsMembers<T>(self: Relationship, all: seq<Relationship>, rootOf: Relationship -> seq<T>, root: seq<T>)
    ensures root in PeerRoots(self, all, rootOf) <==>
            exists k :: 0 <= k < |all| && all[k].id != self.id && all[k].connectionId == self.connectionId && rootOf(all[k]) == root
  {
    if all != [] {
      PeerRootsMembers(self, all[1..], rootOf, root);
      if k :| 0 <= k < |all| && all[k].id != self.id && all[k].connectionId == self.connectionId && rootOf(all[k]) == root {
        assert k > 0 ==> all[1..][k - 1] == all[k];
      }
      if k :| 0 <= k < |all[1..]| && all[1..][k].id != self.id && all[1..][k].connectionId == self.connectionId && rootOf(all[1..][k]) == root {
        assert all[k + 1] == all[1..][k];
      }
    }
  }

  /** Leaving oneself out of the list makes no difference: one's own root is not strictly inside itself. */
  lemma {:induction false} HandlesIsOwns<T>(all: seq<Relationship>, rootOf: Relationship -> seq<T>, i: nat, path: seq<T>)
    requires OneConnection(all) && i < |all|
    ensures Handles(all[i], all, rootOf, path) <==> Owns(Roots(all, rootOf), i, path)
  {
    var root := rootOf(all[i]);
    var roots := Roots(all, rootOf);
    var mine := Exclusions(all[i], all, rootOf);
    var whole := RootsInside(root, roots);
    forall r: seq<T> ensures r in mine <==> r in whole {
      RootsInsideMembers(root, PeerRoots(all[i], all, rootOf), r);
      RootsInsideMembers(root, roots, r);
      PeerRootsMembers(all[i], all, rootOf, r);
      if r in roots && r != root {
        var k :| 0 <= k < |roots| && roots[k] == r;
        assert all[k].id != all[i].id && all[k].connectionId == all[i].connectionId && rootOf(all[k]) == r;
      }
      if k :| 0 <= k < |all| && rootOf(all[k]) == r {
        assert roots[k] == r;
      }
    }
    SameMembersSameAnswer(mine, whole, path);
  }

  lemma {:induction false} SameMembersSameAnswer<T>(a: seq<seq<T>>, b: seq<seq<T>>, path: seq<T>)
    requires forall r :: r in a <==> r in b
    ensures InAny(path, a) <==> InAny(path, b)
  {
    if k :| 0 <= k < |a| && IsPrefix(a[k], path) {
      assert a[k] in b;
    }
    if k :| 0 <= k < |b| && IsPrefix(b[k], path) {
      assert b[k] in a;
    }
  }

  /**
   Among relationships on one connection with pairwise distinct roots, a path covered by some
   of them is handled by exactly one: the one with the longest root. `rootOf` is `RemoteRoot`
   for the paths of the server and `LocalRoot` for those on disk.
   */
  lemma {:induction false} PathHasOneHandler<T(!new)>(all: seq<Relationship>, rootOf: Relationship -> seq<T>, path: seq<T>) returns (owner: nat)
    requires OneConnection(all) && DistinctRoots(all, rootOf)
    requires exists i :: 0 <= i < |all| && IsPrefix(rootOf(all[i]), path)
    ensures owner < |all|
    ensures forall i :: 0 <= i < |all| ==> (Handles(all[i], all, rootOf, path) <==> i == owner)
    ensures forall i :: 0 <= i < |all| && IsPrefix(rootOf(all[i]), path) ==> |rootOf(all[i])| <= |rootOf(all[owner])|
  {
    var roots := Roots(all, rootOf);
    var covering :| 0 <= covering < |all| && IsPrefix(rootOf(all[covering]), path);
    assert IsPrefix(roots[covering], path);
    owner := CoveredPathHasOwner(roots, path);
    UniqueOwnerIffRootsDistinct(roots);
    forall i | 0 <= i < |all| ensures Handles(all[i], all, rootOf, path) <==> i == owner {
      HandlesIsOwns(all, rootOf, i, path);
    }
    forall i | 0 <= i < |all| && IsPrefix(rootOf(all[i]), path) ensures |rootOf(all[i])| <= |rootOf(all[owner])| {
      assert IsPrefix(roots[i], path);
    }
  }

  /** Two relationships sharing a root both handle it: distinctness is needed, not just sufficient. */
  lemma {:induction false} SharedRootHasTwoHandlers<T(!new)>(all: seq<Relationship>, rootOf: Relationship -> seq<T>, i: nat, j: nat)
    requires OneConnection(all) && i < j < |all| && rootOf(all[i]) == rootOf(all[j])
    ensures Handles(all[i], all, rootOf, rootOf(all[i])) && Handles(all[j], all, rootOf, rootOf(all[i]))
  {
    var roots := Roots(all, rootOf);
    OwnsIffLongest(roots, i, roots[i]);
    OwnsIffLongest(roots, j, roots[i]);
    HandlesIsOwns(all, rootOf, i, roots[i]);
    HandlesIsOwns(all, rootOf, j, roots[i]);
  }

  // ---------------------------------------------------------------------------------------
  // Why the string prefix is a directory test
  // ---------------------------------------------------------------------------------------

  /** `normalize_remote_path`. */
  function NormalizeRemotePath(path: string): (normalized: string)
    ensures |normalized| > 0 && normalized[0] == '/' && normalized[|normalized| - 1] == '/'
    ensures '\\' !in normalized
    ensures NormalizedRoot(path) ==> normalized == path
  {
    var slashed := seq(|path|, i requires 0 <= i < |path| => if path[i] == '\\' then '/' else path[i]);
    assert NormalizedRoot(path) ==> slashed == path;
    var rooted := if IsPrefix("/", slashed) then slashed else "/" + slashed;
    if rooted[|rooted| - 1] == '/' then rooted else rooted + "/"
  }

  predicate NormalizedRoot(path: string) {
    |path| > 0 && path[0] == '/' && path[|path| - 1] == '/' && '\\' !in path
  }

  /**
   With a root as the relationships store it, the string prefix test respects directory
   boundaries: a sibling whose name merely begins with the root's last name is not covered.
   */
  lemma {:induction false} PrefixRespectsDirectories(path: string, sibling: string)
    requires sibling != [] && sibling[0] != '/'
    ensures var root := NormalizeRemotePath(path); !IsPrefix(root, root[..|root| - 1] + sibling)
  {
    var root := NormalizeRemotePath(path);
    var beside := root[..|root| - 1] + sibling;
    assert beside[|root| - 1] == sibling[0];
    assert |beside| >= |root| ==> beside[..|root|][|root| - 1] != root[|root| - 1];
  }
}
