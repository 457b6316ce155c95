/** What include expansion leaves of includes and empty lists, counted on the result and the
    files alone, and the order of the result. */
module Leftovers {
  import opened Wrappers
  import opened Arenas
  import opened Expansion

  // ---------- counting ----------

  /** The tree reads as an include of a printable path. */
  predicate IsInclude(t: Tree) {
    t.kind.ListKind? && ReadInclude(t.kids).Names?
  }

  function CountIncludes(trees: seq<Tree>): nat {
    if trees == [] then 0 else (if IsInclude(trees[0]) then 1 else 0) + CountIncludes(trees[1..])
  }

  /** The forms of a file that are not modules; they are never looked into. */
  function Outside(forms: seq<Tree>): seq<Tree> {
    if forms == [] then [] else (if IsModule(forms[0]) then [] else [forms[0]]) + Outside(forms[1..])
  }

  /** The paths of the list that do not load. */
  function CountMissing(files: Files, paths: seq<string>): nat {
    if paths == [] then 0
    else CountMissing(files, paths[..|paths| - 1]) + (if Load(files, paths[|paths| - 1]).None? then 1 else 0)
  }

  /** The includes that stand outside the modules of these files. */
  function CountOutside(files: Files, paths: seq<string>): nat {
    if paths == [] then 0
    else
      CountOutside(files, paths[..|paths| - 1]) +
      match Load(files, paths[|paths| - 1]) case None => 0 case Some(forms) => CountIncludes(Outside(forms))
  }

  lemma {:induction false} CountAppend(a: seq<Tree>, b: seq<Tree>)
    ensures CountIncludes(a + b) == CountIncludes(a) + CountIncludes(b)
  {
    hide IsInclude;
    if a == [] {
      assert a + b == b;
    } else {
      assert (a + b)[1..] == a[1..] + b;
      CountAppend(a[1..], b);
    }
  }

  /** The result `r` has `had` includes besides those that the visits from `visited` on explain:
      one for each path that does not load, and those outside modules in the other files. */
  ghost predicate Explained(files: Files, had: nat, visited: seq<string>, r: Spliced) {
    CountIncludes(r.trees) + CountMissing(files, visited) + CountOutside(files, visited) ==
    had + CountMissing(files, r.visited) + CountOutside(files, r.visited)
  }

  lemma {:induction false} ExplainedBoth(files: Files, n: nat, k: nat, v: seq<string>, a: Spliced, b: Spliced)
    requires Explained(files, n, v, a) && Explained(files, k, a.visited, b)
    ensures Explained(files, n + k, v, Spliced(a.trees + b.trees, b.visited))
  {
    CountAppend(a.trees, b.trees);
  }

  /** Includes of printable paths among the children vanish, but for one for each newly visited
      path that does not load; and files bring in only those that stand outside their modules. */
  lemma {:induction false} IncludesLeft(files: Files, kids: seq<Tree>, visited: seq<string>, dir: string)
    requires Expand(files, kids, visited, dir, true).Some?
    ensures Explained(files, 0, visited, Expand(files, kids, visited, dir, true).value)
    decreases Unvisited(files, visited), kids
  {
    hide Unvisited, ExpandOne, Explained;
    if kids == [] {
      NoneLeft(files, visited);
    } else {
      var one := ExpandOne(files, kids[0], visited, dir, true).value;
      IncludeLeft(files, kids[0], visited, dir);
      VisitsFall(files, visited, one.visited);
      IncludesLeft(files, kids[1..], one.visited, dir);
      ExplainedBoth(files, 0, 0, visited, one, Expand(files, kids[1..], one.visited, dir, true).value);
    }
  }

  lemma {:induction false} NoneLeft(files: Files, visited: seq<string>)
    ensures Explained(files, 0, visited, Spliced([], visited))
  {
  }

  lemma {:induction false} OneLeft(files: Files, t: Tree, visited: seq<string>)
    ensures Explained(files, if IsInclude(t) then 1 else 0, visited, Spliced([t], visited))
  {
    assert [t][1..] == [];
  }

  /** Visiting a path that does not load leaves one include. */
  lemma {:induction false} MissingLeft(files: Files, t: Tree, path: string, visited: seq<string>)
    requires IsInclude(t) && Load(files, path).None?
    ensures Explained(files, 0, visited, Spliced([t], visited + [path]))
  {
    hide IsInclude, Load;
    var v := visited + [path];
    assert [t][1..] == [] && v[..|v| - 1] == visited && v[|v| - 1] == path;
    assert CountIncludes([t]) == 1;
    assert CountMissing(files, v) == CountMissing(files, visited) + 1;
    assert CountOutside(files, v) == CountOutside(files, visited);
  }

  /** Visiting a file explains the includes outside its modules. */
  lemma {:induction false} FileExplains(files: Files, path: string, visited: seq<string>, r: Spliced)
    requires Load(files, path).Some?
    requires Explained(files, CountIncludes(Outside(Load(files, path).value)), visited + [path], r)
    ensures Explained(files, 0, visited, r)
  {
    hide Load, CountIncludes, Outside;
    assert (visited + [path])[..|visited|] == visited;
  }

  lemma {:induction false} IncludeLeft(files: Files, t: Tree, visited: seq<string>, dir: string)
    requires ExpandOne(files, t, visited, dir, true).Some?
    ensures Explained(files, 0, visited, ExpandOne(files, t, visited, dir, true).value)
    decreases Unvisited(files, visited), t
  {
    hide Unvisited, Splice, Load, Explained, CountIncludes, Outside;
    NoneLeft(files, visited);
    OneLeft(files, t, visited);
    if IsInclude(t) {
      var path := ResolvePath(ReadInclude(t.kids).path, dir);
      if path !in visited {
        if Load(files, path).Some? {
          VisitShrinks(files, visited, path);
          FormsLeft(files, Load(files, path).value, visited + [path], Dirname(path));
          FileExplains(files, path, visited, ExpandOne(files, t, visited, dir, true).value);
        } else {
          MissingLeft(files, t, path, visited);
        }
      }
    }
  }

  lemma {:induction false} FormsLeft(files: Files, forms: seq<Tree>, visited: seq<string>, dir: string)
    requires Splice(files, forms, visited, dir).Some?
    ensures Explained(files, CountIncludes(Outside(forms)), visited, Splice(files, forms, visited, dir).value)
    decreases Unvisited(files, visited), forms
  {
    hide Unvisited, Expand, Explained, IsModule, CountIncludes;
    if forms == [] {
      NoneLeft(files, visited);
      CountNone();
    } else {
      var one := SpliceOne(files, forms[0], visited, dir).value;
      CountFirst(forms);
      if IsModule(forms[0]) {
        IncludesLeft(files, forms[0].kids, visited, dir);
        VisitsFall(files, visited, one.visited);
      } else {
        OneLeft(files, forms[0], visited);
      }
      FormsLeft(files, forms[1..], one.visited, dir);
      ExplainedBoth(files, if !IsModule(forms[0]) && IsInclude(forms[0]) then 1 else 0,
                    CountIncludes(Outside(forms[1..])), visited, one,
                    Splice(files, forms[1..], one.visited, dir).value);
    }
  }

  lemma {:induction false} CountNone()
    ensures CountIncludes([]) == 0
  {
  }

  lemma {:induction false} CountFirst(forms: seq<Tree>)
    requires forms != []
    ensures CountIncludes(Outside(forms)) ==
            (if !IsModule(forms[0]) && IsInclude(forms[0]) then 1 else 0) + CountIncludes(Outside(forms[1..]))
  {
    hide IsInclude;
    var first := if IsModule(forms[0]) then [] else [forms[0]];
    CountAppend(first, Outside(forms[1..]));
    if !IsModule(forms[0]) {
      assert first[1..] == [];
    }
  }

  /** The number of includes of printable paths in the result, exactly. */
  lemma {:induction false} IncludesLeftExactly(files: Files, kids: seq<Tree>, dir: string)
    requires Expand(files, kids, [], dir, true).Some?
    ensures var r := Expand(files, kids, [], dir, true).value;
            CountIncludes(r.trees) == CountMissing(files, r.visited) + CountOutside(files, r.visited)
  {
    IncludesLeft(files, kids, [], dir);
  }

  // ---------- empty lists and malformed includes ----------

  /** Trees that are neither taken as they are nor includes: empty lists, which vanish, and
      malformed includes, which stop the expansion. */
  predicate IsStray(x: Tree) {
    x.kind.ListKind? && (x.kids == [] || ReadInclude(x.kids).Malformed?)
  }

  function OutsideFiles(files: Files, paths: seq<string>, x: Tree): nat {
    if paths == [] then 0
    else
      OutsideFiles(files, paths[..|paths| - 1], x) +
      match Load(files, paths[|paths| - 1]) case None => 0 case Some(forms) => multiset(Outside(forms))[x]
  }

  /** `r` holds `x` `had` times, and as often as the visited files hold it outside modules. */
  ghost predicate Strays(files: Files, had: nat, visited: seq<string>, r: Spliced, x: Tree) {
    multiset(r.trees)[x] + OutsideFiles(files, visited, x) == had + OutsideFiles(files, r.visited, x)
  }

  /** Such trees are in the result exactly as often as the newly visited files hold them outside
      their modules. */
  lemma {:induction false} StraysLeft(files: Files, kids: seq<Tree>, visited: seq<string>, dir: string, x: Tree)
    requires IsStray(x) && Expand(files, kids, visited, dir, true).Some?
    ensures Strays(files, 0, visited, Expand(files, kids, visited, dir, true).value, x)
    decreases Unvisited(files, visited), kids
  {
    hide Unvisited, ExpandOne, OutsideFiles, IsStray;
    if kids != [] {
      var one := ExpandOne(files, kids[0], visited, dir, true).value;
      StrayLeft(files, kids[0], visited, dir, x);
      VisitsFall(files, visited, one.visited);
      StraysLeft(files, kids[1..], one.visited, dir, x);
    }
  }

  lemma {:induction false} StrayLeft(files: Files, t: Tree, visited: seq<string>, dir: string, x: Tree)
    requires IsStray(x) && ExpandOne(files, t, visited, dir, true).Some?
    ensures Strays(files, 0, visited, ExpandOne(files, t, visited, dir, true).value, x)
    decreases Unvisited(files, visited), t
  {
    hide Unvisited, Splice, Load, Outside;
    if IsInclude(t) {
      var path := ResolvePath(ReadInclude(t.kids).path, dir);
      assert (visited + [path])[..|visited|] == visited;
      if path !in visited && Load(files, path).Some? {
        VisitShrinks(files, visited, path);
        StrayForms(files, Load(files, path).value, visited + [path], Dirname(path), x);
      }
    }
  }

  lemma {:induction false} StrayForms(files: Files, forms: seq<Tree>, visited: seq<string>, dir: string, x: Tree)
    requires IsStray(x) && Splice(files, forms, visited, dir).Some?
    ensures Strays(files, multiset(Outside(forms))[x], visited, Splice(files, forms, visited, dir).value, x)
    decreases Unvisited(files, visited), forms
  {
    hide Unvisited, Expand, OutsideFiles, IsStray;
    if forms != [] {
      var one := SpliceOne(files, forms[0], visited, dir).value;
      if IsModule(forms[0]) {
        StraysLeft(files, forms[0].kids, visited, dir, x);
        VisitsFall(files, visited, one.visited);
      }
      StrayForms(files, forms[1..], one.visited, dir, x);
    }
  }

  // ---------- order ----------

  /** First all that comes of the earlier children, then all that comes of the later ones. */
  lemma {:induction false} ExpandInOrder(files: Files, a: seq<Tree>, b: seq<Tree>, visited: seq<string>, dir: string,
          allow: bool)
    ensures Expand(files, a + b, visited, dir, allow) ==
            match Expand(files, a, visited, dir, allow)
            case None => None
            case Some(x) => Before(x.trees, Expand(files, b, x.visited, dir, allow))
    decreases |a|
  {
    hide ExpandOne, Unvisited;
    if a == [] {
      assert a + b == b;
      BeforeBefore([], [], Expand(files, b, visited, dir, allow));
    } else {
      assert (a + b)[1..] == a[1..] + b;
      var one := ExpandOne(files, a[0], visited, dir, allow);
      if one.Some? {
        ExpandInOrder(files, a[1..], b, one.value.visited, dir, allow);
        var x := Expand(files, a[1..], one.value.visited, dir, allow);
        if x.Some? {
          BeforeBefore(one.value.trees, x.value.trees, Expand(files, b, x.value.visited, dir, allow));
        }
      }
    }
  }

  /** A file's forms, modules being opened. */
  function Opened(forms: seq<Tree>): seq<Tree> {
    if forms == [] then [] else (if IsModule(forms[0]) then forms[0].kids else [forms[0]]) + Opened(forms[1..])
  }

  /** Children among which there is nothing to serve and nothing to drop. */
  predicate AllPlain(kids: seq<Tree>) {
    forall k :: 0 <= k < |kids| ==> IsPlain(kids[k])
  }

  lemma {:induction false} PlainStays(files: Files, kids: seq<Tree>, visited: seq<string>, dir: string, allow: bool)
    requires AllPlain(kids)
    ensures Expand(files, kids, visited, dir, allow) == Some(Spliced(kids, visited))
  {
    hide Unvisited;
    if kids != [] {
      assert IsPlain(kids[0]) && AllPlain(kids[1..]);
      PlainStays(files, kids[1..], visited, dir, allow);
      assert [kids[0]] + kids[1..] == kids;
    }
  }

  /** A file without includes of its own, included between other children: its forms take the
      place of the include, in file order, its modules opened; a second include of it vanishes. */
  lemma {:induction false} FileInPlace(files: Files, a: seq<Tree>, t: Tree, b: seq<Tree>, visited: seq<string>,
          dir: string)
    requires AllPlain(a) && AllPlain(b) && IsInclude(t) && ResolvePath(ReadInclude(t.kids).path, dir) != ""
    requires var path := ResolvePath(ReadInclude(t.kids).path, dir);
             Load(files, path).Some? && AllPlain(Opened(Load(files, path).value))
    ensures var path := ResolvePath(ReadInclude(t.kids).path, dir);
            Expand(files, a + [t] + b, visited, dir, true) ==
            Some(if path in visited then Spliced(a + b, visited)
                 else Spliced(a + Opened(Load(files, path).value) + b, visited + [path]))
  {
    hide Expand, ExpandOne, Splice, Load, AllPlain, Unvisited, Opened;
    var path := ResolvePath(ReadInclude(t.kids).path, dir);
    var forms := Load(files, path).value;
    var mid := if path in visited then [] else Opened(forms);
    var v := if path in visited then visited else visited + [path];
    IncludeInPlace(files, t, visited, dir);
    SingleChild(files, t, visited, dir);
    PlainStays(files, a, visited, dir, true);
    ExpandInOrder(files, a, [t], visited, dir, true);
    ExpandInOrder(files, a + [t], b, visited, dir, true);
    PlainStays(files, b, v, dir, true);
    assert a + [] == a;
  }

  lemma {:induction false} SingleChild(files: Files, t: Tree, visited: seq<string>, dir: string)
    requires ExpandOne(files, t, visited, dir, true).Some?
    ensures Expand(files, [t], visited, dir, true) == ExpandOne(files, t, visited, dir, true)
  {
    hide ExpandOne, Unvisited;
    var one := ExpandOne(files, t, visited, dir, true).value;
    assert [t][1..] == [] && one.trees + [] == one.trees;
    assert Expand(files, [], one.visited, dir, true) == Some(Spliced([], one.visited));
  }

  lemma {:induction false} IncludeInPlace(files: Files, t: Tree, visited: seq<string>, dir: string)
    requires IsInclude(t) && ResolvePath(ReadInclude(t.kids).path, dir) != ""
    requires var path := ResolvePath(ReadInclude(t.kids).path, dir);
             Load(files, path).Some? && AllPlain(Opened(Load(files, path).value))
    ensures var path := ResolvePath(ReadInclude(t.kids).path, dir);
            ExpandOne(files, t, visited, dir, true) ==
            Some(if path in visited then Spliced([], visited)
                 else Spliced(Opened(Load(files, path).value), visited + [path]))
  {
    hide Splice, Load, AllPlain, Unvisited, Opened;
    var path := ResolvePath(ReadInclude(t.kids).path, dir);
    PlainFileStays(files, Load(files, path).value, visited + [path], Dirname(path));
  }

  lemma {:induction false} PlainFileStays(files: Files, forms: seq<Tree>, visited: seq<string>, dir: string)
    requires AllPlain(Opened(forms))
    ensures Splice(files, forms, visited, dir) == Some(Spliced(Opened(forms), visited))
  {
    hide Expand, IsModule, Unvisited;
    if forms != [] {
      var first := if IsModule(forms[0]) then forms[0].kids else [forms[0]];
      PlainParts(first, Opened(forms[1..]));
      if IsModule(forms[0]) {
        PlainStays(files, first, visited, dir, true);
      }
      PlainFileStays(files, forms[1..], visited, dir);
    }
  }

  lemma {:induction false} PlainParts(a: seq<Tree>, b: seq<Tree>)
    requires AllPlain(a + b)
    ensures AllPlain(a) && AllPlain(b)
  {
    hide IsPlain;
    forall k | 0 <= k < |a| ensures IsPlain(a[k]) {
      assert a[k] == (a + b)[k];
    }
    forall k | 0 <= k < |b| ensures IsPlain(b[k]) {
      assert b[k] == (a + b)[|a| + k];
    }
  }

  // ---------- what stops the expansion ----------

  predicate IsMalformed(t: Tree) {
    t.kind.ListKind? && ReadInclude(t.kids).Malformed?
  }

  /** A malformed include among the children stops the expansion. */
  lemma {:induction false} MalformedStops(files: Files, kids: seq<Tree>, visited: seq<string>, dir: string, k: nat)
    requires k < |kids| && IsMalformed(kids[k])
    ensures Expand(files, kids, visited, dir, true).None?
    decreases |kids|
  {
    hide Unvisited;
    var one := ExpandOne(files, kids[0], visited, dir, true);
    if k > 0 && one.Some? {
      MalformedStops(files, kids[1..], one.value.visited, dir, k - 1);
    }
  }

  /** So does one in a module of a file that is included for the first time. */
  lemma {:induction false} MalformedFileStops(files: Files, t: Tree, visited: seq<string>, dir: string, j: nat, k: nat)
    requires IsInclude(t)
    requires var path := ResolvePath(ReadInclude(t.kids).path, dir);
             path !in visited && Load(files, path).Some? &&
             var forms := Load(files, path).value;
             j < |forms| && IsModule(forms[j]) && k < |forms[j].kids| && IsMalformed(forms[j].kids[k])
    ensures ExpandOne(files, t, visited, dir, true).None?
  {
    hide Unvisited, Splice, Load;
    var path := ResolvePath(ReadInclude(t.kids).path, dir);
    MalformedFormStops(files, Load(files, path).value, visited + [path], Dirname(path), j, k);
  }

  lemma {:induction false} MalformedFormStops(files: Files, forms: seq<Tree>, visited: seq<string>, dir: string,
          j: nat, k: nat)
    requires j < |forms| && IsModule(forms[j]) && k < |forms[j].kids| && IsMalformed(forms[j].kids[k])
    ensures Splice(files, forms, visited, dir).None?
    decreases |forms|
  {
    hide Unvisited, Expand, IsModule;
    if j == 0 {
      MalformedStops(files, forms[0].kids, visited, dir, k);
    } else {
      var one := SpliceOne(files, forms[0], visited, dir);
      if one.Some? {
        MalformedFormStops(files, forms[1..], one.value.visited, dir, j - 1, k);
      }
    }
  }
}
