/**
 Recursive removal of a directory tree through `stat`, `readdir`, `unlink` and `rmdir`. The client
 holds paths as strings and joins listed names to them; the server's tree maps each place to what
 lies there.
 */
module RecursiveRemoval {
  import opened Common
  import opened Paths

  datatype Kind = File | Directory

  type Tree = map<Path, Kind>

  /** Everything but the root lies in a directory and has a name (with an empty name the removal need not end, see
      `EmptyNames`). */
  ghost predicate WellFormed(t: Tree) {
    forall p :: p in t && p != [] ==> Parent(p) in t && t[Parent(p)] == Directory && p[|p| - 1] != ""
  }

  function Parent(p: Path): Path
    requires p != []
  {
    p[..|p| - 1]
  }

  function Subtree(t: Tree, path: Path): set<Path> {
    set p | p in t && path <= p
  }

  function ChildNames(t: Tree, path: Path): set<string> {
    set p | p in t && |p| == |path| + 1 && path <= p :: p[|path|]
  }

  /** All names below `path` are legal. */
  ghost predicate LegalBelow(t: Tree, path: Path) {
    forall p :: p in t && path < p ==> Legal(p[|p| - 1])
  }

  /** All names below `path` lead to their children when joined to a path. */
  ghost predicate ReachableBelow(t: Tree, path: Path) {
    forall p :: p in t && path < p ==> Reachable(p[|p| - 1])
  }

  datatype Call = Unlinked(path: Path) | RemovedDirectory(path: Path, empty: bool)

  class Server {
    var tree: Tree
    var calls: nat
    const fault: nat -> Option<PosixError> // the calls that fail for reasons of their own
    ghost var log: seq<Call>               // the removals attempted, in order

    constructor (tree: Tree, fault: nat -> Option<PosixError>)
      ensures this.tree == tree && this.fault == fault && calls == 0 && log == []
    {
      this.tree, this.fault, calls, log := tree, fault, 0, [];
    }

    method Stat(path: string) returns (r: Result<Kind>)
      modifies this`calls
      ensures calls == old(calls) + 1
      ensures r == if fault(old(calls)).Some? then Err(fault(old(calls)).value)
                   else if Resolved(path) in tree then Ok(tree[Resolved(path)]) else Err(ENOENT)
    {
      calls := calls + 1;
      if fault(calls - 1).Some? {
        return Err(fault(calls - 1).value);
      }
      r := if Resolved(path) in tree then Ok(tree[Resolved(path)]) else Err(ENOENT);
    }

    /** The names in a directory, with its own two entries, in whatever order the server likes. */
    method List(path: string) returns (r: Result<seq<string>>)
      requires Resolved(path) in tree && tree[Resolved(path)] == Directory
      modifies this`calls
      ensures calls == old(calls) + 1
      ensures fault(old(calls)).Some? ==> r == Err(fault(old(calls)).value)
      ensures fault(old(calls)).None? ==>
                r.Ok? && forall name :: name in r.value <==> name in ChildNames(tree, Resolved(path)) + {".", ".."}
      ensures r.Ok? ==> forall i, j :: 0 <= i < j < |r.value| ==> r.value[i] != r.value[j]
    {
      calls := calls + 1;
      if fault(calls - 1).Some? {
        return Err(fault(calls - 1).value);
      }
      var todo := ChildNames(tree, Resolved(path)) + {".", ".."};
      var names: seq<string> := [];
      while todo != {}
        invariant calls == old(calls) + 1
        invariant forall name ::
                    name in ChildNames(tree, Resolved(path)) + {".", ".."} <==> name in names || name in todo
        invariant forall name :: name in todo ==> name !in names
        invariant forall i, j :: 0 <= i < j < |names| ==> names[i] != names[j]
        decreases |todo|
      {
        SomeName(todo);
        var name :| name in todo;
        todo, names := todo - {name}, names + [name];
      }
      r := Ok(names);
    }

    method Unlink(path: string) returns (error: Option<PosixError>)
      modifies this
      ensures calls == old(calls) + 1 && log == old(log) + [Unlinked(Resolved(path))]
      ensures error == if fault(old(calls)).Some? then fault(old(calls))
                       else if Resolved(path) !in old(tree) then Some(ENOENT)
                       else if old(tree)[Resolved(path)] == Directory then Some(EISDIR)
                       else None
      ensures tree == if error.None? then old(tree) - {Resolved(path)} else old(tree)
    {
      calls, log := calls + 1, log + [Unlinked(Resolved(path))];
      if fault(calls - 1).Some? {
        return fault(calls - 1);
      }
      if Resolved(path) !in tree {
        return Some(ENOENT);
      }
      if tree[Resolved(path)] == Directory {
        return Some(EISDIR);
      }
      tree := tree - {Resolved(path)};
      error := None;
    }

    method Rmdir(path: string) returns (error: Option<PosixError>)
      modifies this
      ensures calls == old(calls) + 1
      ensures log == old(log) + [RemovedDirectory(Resolved(path), ChildNames(old(tree), Resolved(path)) == {})]
      ensures error == if fault(old(calls)).Some? then fault(old(calls))
                       else if Resolved(path) !in old(tree) then Some(ENOENT)
                       else if old(tree)[Resolved(path)] == File then Some(ENOTDIR)
                       else if ChildNames(old(tree), Resolved(path)) != {} then Some(ENOTEMPTY)
                       else None
      ensures tree == if error.None? then old(tree) - {Resolved(path)} else old(tree)
    {
      calls, log := calls + 1, log + [RemovedDirectory(Resolved(path), ChildNames(tree, Resolved(path)) == {})];
      if fault(calls - 1).Some? {
        return fault(calls - 1);
      }
      if Resolved(path) !in tree {
        return Some(ENOENT);
      }
      if tree[Resolved(path)] == File {
        return Some(ENOTDIR);
      }
      if ChildNames(tree, Resolved(path)) != {} {
        return Some(ENOTEMPTY);
      }
      tree := tree - {Resolved(path)};
      error := None;
    }
  }

  lemma SomeName(names: set<string>)
    requires names != {}
    ensures exists name :: name in names
  {
    if forall name :: name !in names {
      assert false;
    }
  }

  // ---- facts about trees ------------------------------------------------------------

  /** Nothing at or below `path` is deeper than `depth` below it. */
  ghost predicate Shallow(t: Tree, path: Path, depth: nat) {
    forall p :: p in t && path <= p ==> |p| <= |path| + depth
  }

  /** The part of the tree under the listed names of `path` that are legal. */
  function Cleared(t: Tree, path: Path, names: seq<string>): set<Path> {
    set p | p in t && path < p && p[|path|] in names && Legal(p[|path|])
  }

  lemma {:induction false} AncestorExists(t: Tree, p: Path, n: nat)
    requires WellFormed(t) && p in t && n < |p|
    ensures p[..n] in t && t[p[..n]] == Directory
    decreases |p|
  {
    if n < |p| - 1 {
      AncestorExists(t, Parent(p), n);
      assert Parent(p)[..n] == p[..n];
    }
  }

  /** Whatever lies below `path` lies under one of its listed names. */
  lemma ListedName(t: Tree, path: Path, p: Path)
    requires WellFormed(t) && p in t && path < p
    ensures p[|path|] in ChildNames(t, path) && path + [p[|path|]] in t
  {
    var child := path + [p[|path|]];
    assert child == p[..|path| + 1];
    if |path| + 1 < |p| {
      AncestorExists(t, p, |path| + 1);
    } else {
      assert child == p;
    }
    assert child in t && path <= child && child[|path|] == p[|path|];
  }

  lemma BelowChild(path: Path, name: string, p: Path)
    ensures path + [name] <= p <==> path < p && p[|path|] == name
  {
    if path < p && p[|path|] == name {
      assert p == path + [name] + p[|path| + 1..];
    }
  }

  lemma RemovingSubtree(t: Tree, path: Path)
    requires WellFormed(t)
    ensures WellFormed(t - Subtree(t, path))
  {
    var t' := t - Subtree(t, path);
    forall p | p in t' && p != [] ensures Parent(p) in t' && t'[Parent(p)] == Directory {
      assert Parent(p) in t;
      if path <= Parent(p) {
        assert path <= p;
      }
    }
  }

  lemma NamesAppend(t: Tree, path: Path, names: seq<string>, name: string)
    requires Legal(name) && name !in names
    ensures t - Cleared(t, path, names) - Subtree(t - Cleared(t, path, names), path + [name])
         == t - Cleared(t, path, names + [name])
  {
    forall p | p in t
      ensures p in Cleared(t, path, names + [name])
         <==> p in Cleared(t, path, names) || path + [name] <= p
    {
      BelowChild(path, name, p);
    }
  }

  lemma IllegalClearsNothing(t: Tree, path: Path, names: seq<string>, name: string)
    requires !Legal(name)
    ensures Cleared(t, path, names + [name]) == Cleared(t, path, names)
  {
  }

  lemma ClearedWellFormed(t: Tree, path: Path, names: seq<string>)
    requires WellFormed(t)
    ensures WellFormed(t - Cleared(t, path, names))
  {
    var t' := t - Cleared(t, path, names);
    forall p | p in t' && p != [] ensures Parent(p) in t' && t'[Parent(p)] == Directory {
      if path < Parent(p) {
        assert path < p && p[|path|] == Parent(p)[|path|];
      }
    }
  }

  /** A child whose turn has not come yet is as it was. */
  lemma ChildUntouched(t: Tree, path: Path, names: seq<string>, name: string, depth: nat)
    requires WellFormed(t) && Shallow(t, path, depth) && name in ChildNames(t, path) && name !in names
    ensures var t' := t - Cleared(t, path, names);
            && path + [name] in t'
            && depth > 0 && Shallow(t', path + [name], depth - 1)
            && (LegalBelow(t', path + [name]) <==> LegalBelow(t, path + [name]))
  {
    var t', child := t - Cleared(t, path, names), path + [name];
    var p :| p in t && |p| == |path| + 1 && path <= p && p[|path|] == name;
    assert p == child;
    forall q | q in t && child <= q ensures q in t' && path <= q {
      BelowChild(path, name, q);
    }
    forall q | q in t && child < q ensures q in t' {
      BelowChild(path, name, q);
    }
  }

  /** Names below a directory are legal iff its own listing is and those of its children are. */
  lemma LegalBelowSplit(t: Tree, path: Path)
    requires WellFormed(t)
    ensures LegalBelow(t, path)
            <==> forall name :: name in ChildNames(t, path) ==> Legal(name) && LegalBelow(t, path + [name])
  {
    if LegalBelow(t, path) {
      forall name | name in ChildNames(t, path) ensures Legal(name) && LegalBelow(t, path + [name]) {
        var p :| p in t && |p| == |path| + 1 && path <= p && p[|path|] == name;
        assert path < p;
        forall q | q in t && path + [name] < q ensures Legal(q[|q| - 1]) {
          BelowChild(path, name, q);
        }
      }
    }
    if forall name :: name in ChildNames(t, path) ==> Legal(name) && LegalBelow(t, path + [name]) {
      forall p | p in t && path < p ensures Legal(p[|p| - 1]) {
        ListedName(t, path, p);
        BelowChild(path, p[|path|], p);
        if |p| > |path| + 1 {
          assert path + [p[|path|]] < p;
        }
      }
    }
  }

  lemma IllegalStays(t: Tree, path: Path, names: seq<string>, p: Path)
    requires WellFormed(t) && p in t && path < p && !Legal(p[|path|])
    ensures p[|path|] in ChildNames(t - Cleared(t, path, names), path)
  {
    var child := path + [p[|path|]];
    ListedName(t, path, p);
    assert child in t - Cleared(t, path, names) && path <= child && child[|path|] == p[|path|];
  }

  /** When every legal name has been cleared, the directory is empty iff all its names were legal. */
  lemma ClearedAll(t: Tree, path: Path, names: seq<string>)
    requires WellFormed(t) && path in t
    requires forall name :: name in ChildNames(t, path) ==> name in names
    ensures var t' := t - Cleared(t, path, names);
            && (ChildNames(t', path) == {} <==> forall name :: name in ChildNames(t, path) ==> Legal(name))
            && (ChildNames(t', path) == {} ==> t' - {path} == t - Subtree(t, path))
  {
    var t' := t - Cleared(t, path, names);
    if forall name :: name in ChildNames(t, path) ==> Legal(name) {
      forall p | p in t && path < p ensures p !in t' {
        ListedName(t, path, p);
      }
      assert forall name :: name !in ChildNames(t', path);
    }
    if ChildNames(t', path) == {} {
      forall p | p in t && path < p ensures p !in t' {
        ListedName(t, path, p);
        if !Legal(p[|path|]) {
          IllegalStays(t, path, names, p);
          assert false;
        }
      }
      forall name | name in ChildNames(t, path) ensures Legal(name) {
        var p :| p in t && |p| == |path| + 1 && path <= p && p[|path|] == name;
        assert path < p && p !in t';
      }
      forall p | p in t ensures p in t' - {path} <==> p in t - Subtree(t, path) {
        if path <= p && p != path {
          assert path < p;
        }
      }
    }
  }

  // ---- the client ---------------------------------------------------------------------

  ghost predicate Faultless(fault: nat -> Option<PosixError>) {
    forall k :: fault(k) == None
  }

  /** Only what lay at or below `path` is gone. */
  ghost predicate RemovedOnly(t: Tree, t': Tree, path: Path) {
    && WellFormed(t')
    && (forall p :: p in t' ==> p in t && t'[p] == t[p])
    && (forall p :: p in t && !(path <= p) ==> p in t')
  }

  /** Every rmdir found its directory empty. */
  ghost predicate AllEmptied(log: seq<Call>) {
    forall k :: 0 <= k < |log| && log[k].RemovedDirectory? ==> log[k].empty
  }

  /** What removing the item at `path` promises; `added` is the log of the removals it attempted. */
  ghost predicate Removal(t: Tree, t': Tree, path: Path, error: Option<PosixError>, added: seq<Call>, faultless: bool) {
    && RemovedOnly(t, t', path)
    && (error.None? ==> path in t && t' == t - Subtree(t, path) && AllEmptied(added))
    && (faultless && path in t ==>
          (error.None? <==> ReachableBelow(t, path)) && (error.Some? ==> error == Some(ENOTEMPTY)))
  }

  /**
   `depth` bounds how deep the tree is below `path`. The item and everything below it are removed; a failure
   part-way leaves the rest of the tree alone. Unless the server fails a call, success depends on the names alone.
   */
  method RemoveItem(server: Server, path: string, ghost depth: nat) returns (error: Option<PosixError>)
    requires WellFormed(server.tree) && Shallow(server.tree, Resolved(path), depth)
    modifies server
    ensures old(server.log) <= server.log
    ensures Removal(old(server.tree), server.tree, Resolved(path), error, server.log[|old(server.log)|..],
            Faultless(server.fault))
    decreases depth, 2
  {
    var stat := server.Stat(path);
    if stat.Err? {
      return Some(stat.error);
    }
    if stat.value == Directory {
      error := RemoveDirectoryRecursive(server, path, depth);
    } else {
      FileIsLeaf(server.tree, Resolved(path));
      error := server.Unlink(path);
    }
  }

  /** What reaches the children is what the client accepts. */
  lemma ReachableBelowIff(t: Tree, path: Path)
    requires WellFormed(t)
    ensures ReachableBelow(t, path) <==> LegalBelow(t, path)
  {
    forall p | p in t && path < p ensures Reachable(p[|p| - 1]) <==> Legal(p[|p| - 1]) {
      ReachableIff(p[|p| - 1]);
    }
  }

  lemma FileIsLeaf(t: Tree, path: Path)
    requires WellFormed(t) && path in t && t[path] == File
    ensures Subtree(t, path) == {path} && ReachableBelow(t, path)
    ensures WellFormed(t - {path})
  {
    forall p | p in t && path <= p ensures p == path {
      assert p[..|path|] == path;
      if path != p {
        AncestorExists(t, p, |path|);
      }
    }
    RemovingSubtree(t, path);
  }

  /** A child has been dealt with. */
  lemma ChildRemoved(t: Tree, t': Tree, path: Path, names: seq<string>, name: string, depth: nat,
                     error: Option<PosixError>, added: seq<Call>, faultless: bool)
    requires WellFormed(t) && Shallow(t, path, depth) && path in t
    requires name in ChildNames(t, path) && name !in names && Legal(name)
    requires Removal(t - Cleared(t, path, names), t', path + [name], error, added, faultless)
    ensures error.None? ==> t' == t - Cleared(t, path, names + [name]) && AllEmptied(added)
    ensures error.None? && faultless ==> LegalBelow(t, path + [name])
    ensures error.Some? ==> forall all :: Removal(t, t', path, error, all, faultless)
  {
    hide LegalBelow, ReachableBelow, AllEmptied, RemovedOnly, Cleared, Subtree, Shallow, WellFormed, ChildNames;
    ChildUntouched(t, path, names, name, depth);
    NamesAppend(t, path, names, name);
    LegalBelowSplit(t, path);
    ClearedWellFormed(t, path, names);
    ReachableBelowIff(t - Cleared(t, path, names), path + [name]);
    ReachableBelowIff(t, path);
    RemovedBelow(t, t', path, names, name);
  }

  lemma RemovedBelow(t: Tree, t': Tree, path: Path, names: seq<string>, name: string)
    requires RemovedOnly(t - Cleared(t, path, names), t', path + [name])
    ensures RemovedOnly(t, t', path)
  {
    forall p | p in t && !(path <= p) ensures p in t' {
      BelowChild(path, name, p);
    }
  }

  lemma NothingYet(t: Tree, path: Path)
    ensures t - Cleared(t, path, []) == t && AllEmptied([])
  {
    assert Cleared(t, path, []) == {};
  }

  lemma FaultShows(fault: nat -> Option<PosixError>, k: nat)
    requires fault(k).Some?
    ensures !Faultless(fault)
  {
  }

  lemma NothingRemoved(t: Tree, path: Path, e: PosixError, added: seq<Call>)
    requires WellFormed(t)
    ensures Removal(t, t, path, Some(e), added, false)
  {
  }

  lemma NotCleared(t: Tree, path: Path, names: seq<string>)
    requires path in t
    ensures path in t - Cleared(t, path, names)
  {
  }

  /** All children have been dealt with and the directory itself has been tried. */
  lemma DirectoryRemoved(t: Tree, path: Path, names: seq<string>, faulted: Option<PosixError>, added: seq<Call>,
                         faultless: bool)
    requires WellFormed(t) && path in t && AllEmptied(added)
    requires forall name :: name in ChildNames(t, path) ==> name in names
    requires faultless ==> faulted.None? && forall name :: name in names && Legal(name) ==> LegalBelow(t, path + [name])
    ensures var before := t - Cleared(t, path, names);
            var empty := ChildNames(before, path) == {};
            var error := if faulted.Some? then faulted else if !empty then Some(ENOTEMPTY) else None;
            Removal(t, if error.None? then before - {path} else before, path, error,
                    added + [RemovedDirectory(path, empty)], faultless)
  {
    hide LegalBelow, ReachableBelow, Cleared, ChildNames;
    ClearedWellFormed(t, path, names);
    ClearedAll(t, path, names);
    LegalBelowSplit(t, path);
    ReachableBelowIff(t, path);
    RemovingSubtree(t, path);
    ClearedIsBelow(t, path, names);
  }

  lemma ClearedIsBelow(t: Tree, path: Path, names: seq<string>)
    ensures forall p :: p in Cleared(t, path, names) ==> path <= p
  {
  }

  lemma AllEmptiedAppend(a: seq<Call>, b: seq<Call>)
    requires AllEmptied(a) && AllEmptied(b)
    ensures AllEmptied(a + b)
  {
  }

  lemma NamesAreNotEmpty(t: Tree, path: Path, name: string)
    requires WellFormed(t) && name in ChildNames(t, path)
    ensures name != ""
  {
  }

  /** The loop over a listing of `path`: the legal names are removed one by one until one fails. */
  method RemoveListed(server: Server, path: string, items: seq<string>, ghost depth: nat)
    returns (error: Option<PosixError>, ghost added: seq<Call>)
    requires WellFormed(server.tree) && Shallow(server.tree, Resolved(path), depth) && Resolved(path) in server.tree
    requires forall i, j :: 0 <= i < j < |items| ==> items[i] != items[j]
    requires forall name :: name in items && Legal(name) ==> name in ChildNames(server.tree, Resolved(path))
    modifies server
    ensures server.log == old(server.log) + added
    ensures error.None? ==>
              && server.tree == old(server.tree) - Cleared(old(server.tree), Resolved(path), items) && AllEmptied(added)
              && (Faultless(server.fault) ==>
                    forall name :: name in items && Legal(name) ==>
                      LegalBelow(old(server.tree), Resolved(path) + [name]))
    ensures error.Some? ==>
              forall all :: Removal(old(server.tree), server.tree, Resolved(path), error, all, Faultless(server.fault))
    decreases depth, 0
  {
    hide Cleared, ChildNames, LegalBelow, WellFormed, Shallow, Removal, Faultless, AllEmptied, Subtree, Legal, Resolved,
         Join;
    ghost var t, log, at := server.tree, server.log, Resolved(path);
    ghost var faultless := Faultless(server.fault);
    error, added := None, [];
    NothingYet(t, at);
    assert items[..0] == [] && log + [] == log;
    for i := 0 to |items|
      invariant server.tree == t - Cleared(t, at, items[..i])
      invariant server.log == log + added && AllEmptied(added)
      invariant faultless ==> forall name :: name in items[..i] && Legal(name) ==> LegalBelow(t, at + [name])
    {
      var name := items[i];
      assert name in items && name !in items[..i] && items[..i + 1] == items[..i] + [name];
      if Legal(name) {
        ChildUntouched(t, at, items[..i], name, depth);
        ClearedWellFormed(t, at, items[..i]);
        NamesAreNotEmpty(t, at, name);
        LegalIff(path, name);
        ghost var logged := server.log;
        error := RemoveItem(server, Join(path, name), depth - 1);
        ghost var more := server.log[|logged|..];
        ChildRemoved(t, server.tree, at, items[..i], name, depth, error, more, faultless);
        assert server.log == log + (added + more);
        added := added + more;
        if error.Some? {
          return;
        }
        AllEmptiedAppend(added[..|added| - |more|], more);
        assert added[..|added| - |more|] + more == added;
      } else {
        IllegalClearsNothing(t, at, items[..i], name);
      }
    }
    assert items[..|items|] == items;
    error := None;
  }

  method RemoveDirectoryRecursive(server: Server, path: string, ghost depth: nat) returns (error: Option<PosixError>)
    requires WellFormed(server.tree) && Shallow(server.tree, Resolved(path), depth)
    requires Resolved(path) in server.tree && server.tree[Resolved(path)] == Directory
    modifies server
    ensures old(server.log) <= server.log
    ensures Removal(old(server.tree), server.tree, Resolved(path), error, server.log[|old(server.log)|..],
            Faultless(server.fault))
    decreases depth, 1
  {
    hide Cleared, ChildNames, LegalBelow, WellFormed, Shallow, Removal, Faultless, AllEmptied, Subtree, Resolved;
    ghost var t, log, at := server.tree, server.log, Resolved(path);
    ghost var faultless := Faultless(server.fault);
    var listing := server.List(path);
    if listing.Err? {
      FaultShows(server.fault, server.calls - 1);
      NothingRemoved(t, at, listing.error, []);
      assert server.log[|log|..] == [];
      return Some(listing.error);
    }
    ghost var added;
    error, added := RemoveListed(server, path, listing.value, depth);
    if error.Some? {
      return;
    }
    ghost var before, call := server.tree, server.calls;
    NotCleared(t, at, listing.value);
    error := server.Rmdir(path);
    if server.fault(call).Some? {
      FaultShows(server.fault, call);
    }
    assert server.log[|log|..] == added + [RemovedDirectory(at, ChildNames(before, at) == {})];
    DirectoryRemoved(t, at, listing.value, server.fault(call), added, faultless);
  }

  lemma {:induction false} DeepestPath(paths: set<Path>) returns (depth: nat)
    ensures forall p :: p in paths ==> |p| <= depth
    decreases |paths|
  {
    if p :| p in paths {
      depth := DeepestPath(paths - {p});
      depth := Max(depth, |p|);
    } else {
      depth := 0;
    }
  }

  /**
   Every tree is finite, so the mutual recursion ends whatever the tree. Without faults it succeeds iff every name
   below the item leads to its child when joined to a path.
   */
  method Remove(server: Server, path: string) returns (error: Option<PosixError>)
    requires WellFormed(server.tree)
    modifies server
    ensures old(server.log) <= server.log
    ensures Removal(old(server.tree), server.tree, Resolved(path), error, server.log[|old(server.log)|..],
            Faultless(server.fault))
  {
    ghost var depth := DeepestPath(server.tree.Keys);
    error := RemoveItem(server, path, depth);
  }
}
