/**
 When recursive removal ends. The client joins a directory's path and a listed name with a slash. A
 server that lists an empty name makes it visit the same directory again, which lists the empty name
 again. Here the tree is ordered as the server lists it, every visit of an item costs one unit of
 fuel, and no call fails for reasons of its own.
 */
module EmptyNames {
  import opened Common
  import opened Paths

  // ---- the recursion, with fuel -------------------------------------------------------------

  datatype Node = Leaf | Dir(entries: Entries)

  /** A listing in the server's order; what stands behind an empty name is never looked at. */
  datatype Entries = Nil | Cons(name: string, node: Node, rest: Entries)

  function Append(a: Entries, b: Entries): Entries {
    if a.Nil? then b else a.(rest := Append(a.rest, b))
  }

  /** `Left` is what remains when the removal throws. */
  datatype Ending = Gone | Left(node: Node) | OutOfFuel

  function RemoveNode(n: Node, fuel: nat): Ending
    decreases fuel, n
  {
    match n
    case Leaf => Gone
    case Dir(entries) => if fuel == 0 then OutOfFuel else RemoveEntries(Nil, entries, fuel - 1)
  }

  /**
   The loop over a listing: `kept` are the entries skipped so far, `rest` those to come. At an empty name the same
   directory is visited as it is now; `EndlessEntries` shows that this never comes back.
   */
  function RemoveEntries(kept: Entries, rest: Entries, fuel: nat): Ending
    decreases fuel, rest
  {
    match rest
    case Nil => if kept.Nil? then Gone else Left(Dir(kept))
    case Cons(name, node, more) =>
      if !Legal(name) then RemoveEntries(Append(kept, Cons(name, node, Nil)), more, fuel)
      else if name == "" then (if fuel == 0 then OutOfFuel else RemoveEntries(Nil, Append(kept, rest), fuel - 1))
      else
        match RemoveNode(node, fuel)
        case Gone => RemoveEntries(kept, more, fuel)
        case Left(left) => Left(Dir(Append(kept, Cons(name, left, more))))
        case OutOfFuel => OutOfFuel
  }

  // ---- what becomes of a tree ------------------------------------------------------------------

  datatype Fate = Removed | Fails | Endless

  function FateOf(n: Node): Fate {
    match n
    case Leaf => Removed
    case Dir(entries) => FateOfEntries(entries, true)
  }

  /** The loop meets an empty name before anything fails, or something fails, or all is removed. */
  function FateOfEntries(entries: Entries, clean: bool): Fate {
    match entries
    case Nil => if clean then Removed else Fails
    case Cons(name, node, rest) =>
      if !Legal(name) then FateOfEntries(rest, false)
      else if name == "" then Endless
      else if FateOf(node) == Removed then FateOfEntries(rest, clean)
      else FateOf(node)
  }

  predicate AllIllegal(entries: Entries) {
    entries.Nil? || (!Legal(entries.name) && AllIllegal(entries.rest))
  }

  lemma {:induction false} AppendNil(a: Entries)
    ensures Append(a, Nil) == a
  {
    if a.Cons? {
      AppendNil(a.rest);
    }
  }

  lemma {:induction false} AppendTwice(a: Entries, b: Entries, c: Entries)
    ensures Append(Append(a, b), c) == Append(a, Append(b, c))
  {
    if a.Cons? {
      AppendTwice(a.rest, b, c);
    }
  }

  lemma {:induction false} AppendIllegal(a: Entries, b: Entries)
    requires AllIllegal(a) && AllIllegal(b)
    ensures AllIllegal(Append(a, b))
  {
    if a.Cons? {
      AppendIllegal(a.rest, b);
    }
  }

  /** A new visit skips what the visit before it had skipped. */
  lemma {:induction false} SkipsAgain(kept: Entries, skipped: Entries, rest: Entries, fuel: nat)
    requires AllIllegal(skipped)
    ensures RemoveEntries(kept, Append(skipped, rest), fuel) == RemoveEntries(Append(kept, skipped), rest, fuel)
    decreases skipped
  {
    if skipped.Nil? {
      AppendNil(kept);
    } else {
      var one := Cons(skipped.name, skipped.node, Nil);
      SkipsAgain(Append(kept, one), skipped.rest, rest, fuel);
      AppendTwice(kept, one, skipped.rest);
    }
  }

  function Height(n: Node): nat {
    match n
    case Leaf => 0
    case Dir(entries) => 1 + HeightOf(entries)
  }

  function HeightOf(entries: Entries): nat {
    match entries
    case Nil => 0
    case Cons(name, node, rest) => Max(Height(node), HeightOf(rest))
  }

  /** How the removal ends, if it does: gone or thrown, as the fate says. */
  predicate Agrees(e: Ending, f: Fate) {
    e.OutOfFuel? || (if f == Removed then e.Gone? else e.Left?)
  }

  lemma {:induction false} EntriesEnd(kept: Entries, rest: Entries, fuel: nat)
    requires AllIllegal(kept) && FateOfEntries(rest, kept.Nil?) != Endless
    ensures Agrees(RemoveEntries(kept, rest, fuel), FateOfEntries(rest, kept.Nil?))
    ensures fuel >= HeightOf(rest) ==> RemoveEntries(kept, rest, fuel) != OutOfFuel
    decreases fuel, rest
  {
    if rest.Cons? {
      if !Legal(rest.name) {
        var one := Cons(rest.name, rest.node, Nil);
        AppendIllegal(kept, one);
        EntriesEnd(Append(kept, one), rest.rest, fuel);
      } else {
        NodeEnds(rest.node, fuel);
        if FateOf(rest.node) == Removed {
          EntriesEnd(kept, rest.rest, fuel);
        }
      }
    }
  }

  lemma {:induction false} NodeEnds(n: Node, fuel: nat)
    requires FateOf(n) != Endless
    ensures Agrees(RemoveNode(n, fuel), FateOf(n))
    ensures fuel >= Height(n) ==> RemoveNode(n, fuel) != OutOfFuel
    decreases fuel, n
  {
    if n.Dir? && fuel > 0 {
      EntriesEnd(Nil, n.entries, fuel - 1);
    }
  }

  /** If the loop reaches an empty name, no fuel suffices. */
  lemma {:induction false} EndlessEntries(kept: Entries, rest: Entries, clean: bool, fuel: nat)
    requires AllIllegal(kept) && FateOfEntries(rest, clean) == Endless
    ensures RemoveEntries(kept, rest, fuel) == OutOfFuel
    decreases fuel, rest
  {
    if !Legal(rest.name) {
      var one := Cons(rest.name, rest.node, Nil);
      AppendIllegal(kept, one);
      EndlessEntries(Append(kept, one), rest.rest, false, fuel);
    } else if rest.name == "" {
      if fuel > 0 {
        SkipsAgain(Nil, kept, rest, fuel - 1);
        EndlessEntries(kept, rest, clean, fuel - 1);
      }
    } else if FateOf(rest.node) == Removed {
      EndlessEntries(kept, rest.rest, clean, fuel);
      NodeEnds(rest.node, fuel);
    } else {
      EndlessNode(rest.node, fuel);
    }
  }

  lemma {:induction false} EndlessNode(n: Node, fuel: nat)
    requires FateOf(n) == Endless
    ensures RemoveNode(n, fuel) == OutOfFuel
    decreases fuel, n
  {
    if fuel > 0 {
      EndlessEntries(Nil, n.entries, true, fuel - 1);
    }
  }

  /** The recursion ends iff its loops reach no empty name, and then as the fate says; the depth of the tree is fuel
      enough. */
  lemma RemovalEndsIff(n: Node)
    ensures (exists fuel: nat :: RemoveNode(n, fuel) != OutOfFuel) <==> FateOf(n) != Endless
    ensures FateOf(n) != Endless ==> RemoveNode(n, Height(n)) != OutOfFuel
    ensures FateOf(n) == Removed ==> RemoveNode(n, Height(n)) == Gone
    ensures FateOf(n) == Fails ==> RemoveNode(n, Height(n)).Left?
  {
    if FateOf(n) == Endless {
      forall fuel: nat ensures RemoveNode(n, fuel) == OutOfFuel {
        EndlessNode(n, fuel);
      }
    } else {
      NodeEnds(n, Height(n));
    }
  }

  /** One directory that lists one empty name. */
  lemma EmptyNameNeverEnds(fuel: nat)
    ensures RemoveNode(Dir(Cons("", Leaf, Nil)), fuel) == OutOfFuel
  {
    EndlessNode(Dir(Cons("", Leaf, Nil)), fuel);
  }

  // ---- trees with legal names only ---------------------------------------------------------------

  predicate OnlyLegal(n: Node) {
    n.Dir? ==> OnlyLegalIn(n.entries)
  }

  predicate OnlyLegalIn(entries: Entries) {
    entries.Cons? ==> Legal(entries.name) && OnlyLegal(entries.node) && OnlyLegalIn(entries.rest)
  }

  predicate ListsEmptyName(n: Node) {
    n.Dir? && ListsEmptyNameIn(n.entries)
  }

  predicate ListsEmptyNameIn(entries: Entries) {
    entries.Cons? && (entries.name == "" || ListsEmptyName(entries.node) || ListsEmptyNameIn(entries.rest))
  }

  lemma {:induction false} LegalEntriesFate(entries: Entries)
    requires OnlyLegalIn(entries)
    ensures FateOfEntries(entries, true) == if ListsEmptyNameIn(entries) then Endless else Removed
  {
    if entries.Cons? {
      LegalFate(entries.node);
      LegalEntriesFate(entries.rest);
    }
  }

  /** With legal names only, in whatever order they are listed: everything is removed iff no directory lists an empty
      name, and otherwise the recursion does not end. */
  lemma {:induction false} LegalFate(n: Node)
    requires OnlyLegal(n)
    ensures FateOf(n) == if ListsEmptyName(n) then Endless else Removed
  {
    if n.Dir? {
      LegalEntriesFate(n.entries);
    }
  }

  /** Without empty names the recursion ends on every tree, legal or not. */
  lemma {:induction false} NoEmptyNameEnds(n: Node)
    requires !ListsEmptyName(n)
    ensures FateOf(n) != Endless && RemoveNode(n, Height(n)) != OutOfFuel
  {
    if n.Dir? {
      NoEmptyEntriesEnd(n.entries, true);
    }
    NodeEnds(n, Height(n));
  }

  lemma {:induction false} NoEmptyEntriesEnd(entries: Entries, clean: bool)
    requires !ListsEmptyNameIn(entries)
    ensures FateOfEntries(entries, clean) != Endless
  {
    if entries.Cons? {
      NoEmptyNameEnds(entries.node);
      NoEmptyEntriesEnd(entries.rest, clean);
      NoEmptyEntriesEnd(entries.rest, false);
    }
  }
}
