/**
 When recursive removal leaves the tree it was given. `stat` and `readdir` follow a symbolic link, `unlink` and
 `rmdir` do not: a link to a directory is entered, what lies behind it is removed, and then `rmdir` fails on the link
 itself. Here a link carries what it leads to, which is not part of the tree being removed; listings have the
 server's order; and no call fails for reasons of its own.
 */
module SymbolicLinks {
  import opened Common
  import opened Paths

  datatype Node =
    | Leaf
    | Dir(entries: Entries)
    | Link(target: Node)
    | Dangling // a link that leads nowhere

  datatype Entries = Nil | Cons(name: string, node: Node, rest: Entries)

  /** What `stat` sees. */
  function Resolve(n: Node): (r: Node)
    ensures !r.Link? && (r == n || r < n)
  {
    if n.Link? then Resolve(n.target) else n
  }

  /** What a removal did: whether it ended without an error, and how many entries it removed inside and outside. */
  datatype Effect = Effect(ok: bool, inside: nat, outside: nat)

  function Both(a: Effect, b: Effect): Effect {
    Effect(b.ok, a.inside + b.inside, a.outside + b.outside)
  }

  /** One entry is removed; `away` is whether it was reached through a link. */
  function One(away: bool): Effect {
    if away then Effect(true, 0, 1) else Effect(true, 1, 0)
  }

  const STOPS := Effect(false, 0, 0)

  /** `removeItem` on an item reached through a link or not. */
  function RemoveNode(n: Node, away: bool): Effect
    decreases n, 1
  {
    match Resolve(n)
    case Leaf => One(away)
    case Dangling => STOPS
    case Dir(entries) =>
      var loop := RemoveEntries(entries, away || n.Link?, true);
      if !loop.ok || n.Link? then Both(loop, STOPS) else Both(loop, One(away))
  }

  /** The loop over a listing, and whether the directory is empty after it; an illegal name is skipped and stays. */
  function RemoveEntries(entries: Entries, away: bool, clean: bool): Effect
    decreases entries, 0
  {
    match entries
    case Nil => Effect(clean, 0, 0)
    case Cons(name, node, rest) =>
      if !Legal(name) then RemoveEntries(rest, away, false)
      else
        var first := RemoveNode(node, away);
        if first.ok then Both(first, RemoveEntries(rest, away, clean)) else first
  }

  // ---- where the removal gets to ----------------------------------------------------------

  /** The removal of the item succeeds: links in it lead to files, and all names in it are legal. */
  predicate Removable(n: Node) {
    match n
    case Leaf => true
    case Dir(entries) => AllRemovable(entries)
    case Link(target) => Resolve(target).Leaf?
    case Dangling => false
  }

  predicate AllRemovable(entries: Entries) {
    entries.Cons? ==> Legal(entries.name) && Removable(entries.node) && AllRemovable(entries.rest)
  }

  /** The first legal entry, or what is first in it, can be removed. */
  predicate RemovesSome(n: Node)
    decreases n, 1
  {
    match Resolve(n)
    case Leaf => true
    case Dangling => false
    case Dir(entries) => if FirstLegal(entries).Some? then RemovesSomeIn(entries) else entries.Nil? && !n.Link?
  }

  predicate RemovesSomeIn(entries: Entries)
    decreases entries, 0
  {
    entries.Cons? && if Legal(entries.name) then RemovesSome(entries.node) else RemovesSomeIn(entries.rest)
  }

  function FirstLegal(entries: Entries): (r: Option<Node>)
    ensures r.Some? ==> r.value < entries
  {
    if entries.Nil? then None else if Legal(entries.name) then Some(entries.node) else FirstLegal(entries.rest)
  }

  /**
   The first item the removal fails on, in listing order and without passing a link, is a link to a directory from
   which something can be removed.
   */
  predicate Leaves(n: Node) {
    match n
    case Leaf => false
    case Dangling => false
    case Dir(entries) => LeavesIn(entries)
    case Link(target) => Resolve(target).Dir? && RemovesSomeIn(Resolve(target).entries)
  }

  predicate LeavesIn(entries: Entries) {
    entries.Cons? &&
    if !Legal(entries.name) then LeavesIn(entries.rest)
    else Leaves(entries.node) || (Removable(entries.node) && LeavesIn(entries.rest))
  }

  // ---- proofs -----------------------------------------------------------------------------

  lemma {:induction false} SucceedsIff(n: Node, away: bool)
    ensures RemoveNode(n, away).ok <==> Removable(n)
    decreases n, 1
  {
    if n.Dir? {
      EntriesSucceedIff(n.entries, away, true);
    }
  }

  lemma {:induction false} EntriesSucceedIff(entries: Entries, away: bool, clean: bool)
    ensures RemoveEntries(entries, away, clean).ok <==> clean && AllRemovable(entries)
    decreases entries, 0
  {
    if entries.Cons? {
      SucceedsIff(entries.node, away);
      EntriesSucceedIff(entries.rest, away, clean);
      EntriesSucceedIff(entries.rest, away, false);
    }
  }

  /** Behind a link everything counts as outside. */
  lemma {:induction false} AwayRemovesSome(n: Node)
    ensures RemoveNode(n, true).inside == 0
    ensures RemoveNode(n, true).outside > 0 <==> RemovesSome(n)
    decreases n, 1
  {
    if Resolve(n).Dir? {
      AwayEntries(Resolve(n).entries, true);
      EntriesSucceedIff(Resolve(n).entries, true, true);
      NoLegalName(Resolve(n).entries);
    }
  }

  lemma {:induction false} AwayEntries(entries: Entries, clean: bool)
    ensures RemoveEntries(entries, true, clean).inside == 0
    ensures RemoveEntries(entries, true, clean).outside > 0 <==> RemovesSomeIn(entries)
    decreases entries, 0
  {
    if entries.Cons? {
      AwayRemovesSome(entries.node);
      AwayEntries(entries.rest, clean);
      AwayEntries(entries.rest, false);
      SuccessRemoves(entries.node);
    }
  }

  /** A removal that succeeds removes something. */
  lemma SuccessRemoves(n: Node)
    ensures RemoveNode(n, true).ok ==> RemoveNode(n, true).inside + RemoveNode(n, true).outside > 0
  {
  }

  lemma {:induction false} NoLegalName(entries: Entries)
    ensures FirstLegal(entries).None? ==> !RemovesSomeIn(entries)
    ensures FirstLegal(entries).None? && AllRemovable(entries) ==> entries.Nil?
    decreases entries
  {
    if entries.Cons? {
      NoLegalName(entries.rest);
    }
  }

  lemma {:induction false} HereLeaves(n: Node)
    ensures RemoveNode(n, false).outside > 0 <==> Leaves(n)
    decreases n, 1
  {
    match n
    case Leaf =>
    case Dangling =>
    case Dir(entries) => HereEntries(entries, true);
    case Link(target) =>
      if Resolve(target).Dir? {
        AwayEntries(Resolve(target).entries, true);
      }
  }

  lemma {:induction false} HereEntries(entries: Entries, clean: bool)
    ensures RemoveEntries(entries, false, clean).outside > 0 <==> LeavesIn(entries)
    decreases entries, 0
  {
    if entries.Cons? {
      HereLeaves(entries.node);
      SucceedsIff(entries.node, false);
      HereEntries(entries.rest, clean);
      HereEntries(entries.rest, false);
      RemovableStays(entries.node);
    }
  }

  /** What can be removed altogether contains no link to a directory, so its removal stays inside. */
  lemma {:induction false} RemovableStays(n: Node)
    ensures Removable(n) ==> !Leaves(n)
  {
    if n.Dir? {
      AllRemovableStay(n.entries);
    }
  }

  lemma {:induction false} AllRemovableStay(entries: Entries)
    ensures AllRemovable(entries) ==> !LeavesIn(entries)
  {
    if entries.Cons? {
      RemovableStays(entries.node);
      AllRemovableStay(entries.rest);
    }
  }

  /**
   For every tree: the removal succeeds iff its names are legal and its links lead to files, and then it stays inside;
   and it removes something outside the tree iff the first item it fails on is a link to a directory from which
   something can be removed.
   */
  lemma LeavesTreeIff(n: Node)
    ensures RemoveNode(n, false).ok <==> Removable(n)
    ensures RemoveNode(n, false).ok ==> RemoveNode(n, false).outside == 0
    ensures RemoveNode(n, false).outside > 0 <==> Leaves(n)
  {
    SucceedsIff(n, false);
    HereLeaves(n);
    if Removable(n) {
      RemovableStays(n);
    }
  }

  /** A link to a directory is never removed itself. */
  lemma LinkEffect(n: Node, entries: Entries)
    requires n.Link? && Resolve(n) == Dir(entries)
    ensures RemoveNode(n, false) == Both(RemoveEntries(entries, true, true), STOPS)
  {
  }

  /** A directory with a link to a directory elsewhere that holds one file: the file is removed, and the call fails. */
  lemma FileElsewhereIsRemoved(name: string, file: string)
    requires Legal(name) && Legal(file)
    ensures RemoveNode(Dir(Cons(name, Link(Dir(Cons(file, Leaf, Nil))), Nil)), false) == Effect(false, 0, 1)
  {
    hide Legal;
    var there := Cons(file, Leaf, Nil);
    assert RemoveNode(Leaf, true) == Effect(true, 0, 1);
    assert RemoveEntries(there, true, true) == Effect(true, 0, 1);
    var link := Link(Dir(there));
    LinkEffect(link, there);
    assert RemoveNode(link, false) == Effect(false, 0, 1);
    assert RemoveEntries(Cons(name, link, Nil), false, true) == Effect(false, 0, 1);
  }

  predicate NoLinkToDirectory(n: Node) {
    match n
    case Dir(entries) => NoLinksToDirectories(entries)
    case Link(target) => !Resolve(target).Dir?
    case _ => true
  }

  predicate NoLinksToDirectories(entries: Entries) {
    entries.Cons? ==> NoLinkToDirectory(entries.node) && NoLinksToDirectories(entries.rest)
  }

  /** Without links to directories the removal stays inside, whatever else is in the tree. */
  lemma {:induction false} StaysInside(n: Node)
    requires NoLinkToDirectory(n)
    ensures RemoveNode(n, false).outside == 0
    decreases n, 1
  {
    if n.Dir? {
      EntriesStayInside(n.entries, true);
    }
  }

  lemma {:induction false} EntriesStayInside(entries: Entries, clean: bool)
    requires NoLinksToDirectories(entries)
    ensures RemoveEntries(entries, false, clean).outside == 0
    decreases entries, 0
  {
    if entries.Cons? {
      StaysInside(entries.node);
      EntriesStayInside(entries.rest, clean);
      EntriesStayInside(entries.rest, false);
    }
  }
}
