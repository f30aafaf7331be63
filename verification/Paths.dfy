/**
 Paths as strings: how the client joins them and what they lead to. Resolution is lexical: a slash separates, an empty
 component and "." stay where they are, ".." goes up, and at the root ".." stays.
 */
module Paths {

  /** Where something lies: the names from the root down. */
  type Path = seq<string>

  /** Names the client accepts from a listing. */
  predicate Legal(name: string) {
    '/' !in name && name != "." && name != ".."
  }

  function Join(path: string, name: string): string {
    if path != "" && path[|path| - 1] == '/' then path + name else path + "/" + name
  }

  /** The components of a path; `current` is the one being read. */
  function Components(path: string, current: string): seq<string> {
    if path == "" then (if current == "" then [] else [current])
    else if path[0] == '/' then (if current == "" then [] else [current]) + Components(path[1..], "")
    else Components(path[1..], current + [path[0]])
  }

  function Walk(at: Path, parts: seq<string>): Path
    decreases |parts|
  {
    if parts == [] then at
    else if parts[0] == "." then Walk(at, parts[1..])
    else if parts[0] == ".." then Walk(if at == [] then [] else at[..|at| - 1], parts[1..])
    else Walk(at + [parts[0]], parts[1..])
  }

  /** What the path leads to. */
  function Resolved(path: string): Path {
    Walk([], Components(path, ""))
  }

  // ---- what joining a name means --------------------------------------------------------------

  lemma {:induction false} SlashSeparates(a: string, b: string, current: string)
    ensures Components(a + "/" + b, current) == Components(a, current) + Components(b, "")
  {
    if a == "" {
      assert a + "/" + b == "/" + b && ("/" + b)[1..] == b;
    } else {
      assert (a + "/" + b)[1..] == a[1..] + "/" + b;
      SlashSeparates(a[1..], b, if a[0] == '/' then "" else current + [a[0]]);
    }
  }

  lemma {:induction false} OneComponent(name: string, current: string)
    requires '/' !in name
    ensures Components(name, current) == if current + name == "" then [] else [current + name]
  {
    if name != "" {
      OneComponent(name[1..], current + [name[0]]);
      assert current + [name[0]] + name[1..] == current + name;
    } else {
      assert current + name == current;
    }
  }

  /** A listed name becomes one more component; the empty name adds none, so the path names the same directory. */
  lemma JoinedComponents(path: string, name: string)
    requires '/' !in name
    ensures Components(Join(path, name), "") == Components(path, "") + if name == "" then [] else [name]
  {
    OneComponent(name, "");
    assert "" + name == name;
    if path != "" && path[|path| - 1] == '/' {
      SlashEnds(path[..|path| - 1], name);
      assert path == path[..|path| - 1] + "/";
    } else {
      SlashSeparates(path, name, "");
    }
  }

  lemma SlashEnds(front: string, name: string)
    ensures Components(front + "/" + name, "") == Components(front + "/", "") + Components(name, "")
  {
    hide Components;
    SlashSeparates(front, name, "");
    SlashSeparates(front, "", "");
    assert front + "/" + "" == front + "/";
    NoComponents(Components(front, ""));
  }

  lemma NoComponents(parts: seq<string>)
    ensures Components("", "") == [] && parts + [] == parts
  {
  }

  lemma {:induction false} WalkOn(at: Path, parts: seq<string>, part: string)
    ensures Walk(at, parts + [part]) == Walk(Walk(at, parts), [part])
    decreases |parts|
  {
    if parts == [] {
      assert [] + [part] == [part];
    } else {
      assert (parts + [part])[1..] == parts[1..] + [part];
      if parts[0] == "." {
        WalkOn(at, parts[1..], part);
      } else if parts[0] == ".." {
        WalkOn(if at == [] then [] else at[..|at| - 1], parts[1..], part);
      } else {
        WalkOn(at + [parts[0]], parts[1..], part);
      }
    }
  }

  predicate NoSlashes(parts: seq<string>) {
    forall i :: 0 <= i < |parts| ==> '/' !in parts[i]
  }

  lemma {:induction false} ComponentsHaveNoSlash(path: string, current: string)
    requires '/' !in current
    ensures NoSlashes(Components(path, current))
  {
    if path != "" {
      if path[0] == '/' {
        ComponentsHaveNoSlash(path[1..], "");
      } else {
        ComponentsHaveNoSlash(path[1..], current + [path[0]]);
      }
    }
  }

  lemma {:induction false} WalkMakesNoSlash(at: Path, parts: seq<string>)
    requires NoSlashes(at) && NoSlashes(parts)
    ensures NoSlashes(Walk(at, parts))
    decreases |parts|
  {
    if parts != [] {
      if parts[0] == "." {
        WalkMakesNoSlash(at, parts[1..]);
      } else if parts[0] == ".." {
        WalkMakesNoSlash(if at == [] then [] else at[..|at| - 1], parts[1..]);
      } else {
        WalkMakesNoSlash(at + [parts[0]], parts[1..]);
      }
    }
  }

  /** Joined to a path, the name leads to the child of that name. */
  predicate LeadsToChild(path: string, name: string) {
    Resolved(Join(path, name)) == Resolved(path) + [name]
  }

  /** The names the client accepts, but for the empty one, are exactly those that lead to the child of their name,
      whatever the path they are joined to. */
  lemma LegalIff(path: string, name: string)
    requires name != ""
    ensures Legal(name) <==> LeadsToChild(path, name)
  {
    if '/' !in name {
      JoinedComponents(path, name);
      WalkOn([], Components(path, ""), name);
    } else {
      ComponentsHaveNoSlash(Join(path, name), "");
      WalkMakesNoSlash([], Components(Join(path, name), ""));
      assert (Resolved(path) + [name])[|Resolved(path)|] == name;
    }
  }

  /** Whatever path it is joined to, the name leads to the child of that name. */
  ghost predicate Reachable(name: string) {
    forall path: string :: LeadsToChild(path, name)
  }

  lemma ReachableIff(name: string)
    requires name != ""
    ensures Legal(name) <==> Reachable(name)
  {
    forall path: string ensures LeadsToChild(path, name) <==> Legal(name) {
      LegalIff(path, name);
    }
    assert LeadsToChild("", name) <==> Legal(name);
  }

  /** The empty name is accepted and leads back to the directory itself. */
  lemma EmptyNameLeadsBack(path: string)
    ensures Legal("") && Resolved(Join(path, "")) == Resolved(path)
  {
    JoinedComponents(path, "");
    assert Components(path, "") + [] == Components(path, "");
  }
}
