/** Include expansion of stage1 (include_expand.weave). */
module Expansion {
  import opened Wrappers
  import opened Arenas
  import opened TokenParser

  // ---------- paths ----------

  predicate IsPathChar(c: char) {
    '0' <= c <= '9' || 'A' <= c <= 'Z' || 'a' <= c <= 'z' || c == '.' || c == '/' || c == '-' || c == '_'
  }

  predicate Printable(path: string) {
    |path| > 6 && path[|path| - 6..] == ".weave" && '/' in path && forall k :: 0 <= k < |path| ==> IsPathChar(path[k])
  }

  /** is-printable-path */
  method IsPrintablePath(path: string) returns (ok: bool)
    ensures ok == Printable(path)
  {
    if |path| <= 6 || path[|path| - 6..] != ".weave" {
      return false;
    }
    var slash := false;
    var i := 0;
    while i < |path|
      invariant 0 <= i <= |path| && slash == ('/' in path[..i])
      invariant forall k :: 0 <= k < i ==> IsPathChar(path[k])
    {
      if path[i] == '/' {
        slash := true;
      }
      if !IsPathChar(path[i]) {
        return false;
      }
      assert path[..i + 1] == path[..i] + [path[i]];
      i := i + 1;
    }
    assert path[..i] == path;
    return slash;
  }

  /** What precedes the last slash; nothing if there is none. */
  function Dirname(path: string): string {
    if path == "" then ""
    else if path[|path| - 1] == '/' then path[..|path| - 1]
    else Dirname(path[..|path| - 1])
  }

  /** dirname */
  method DirnameOf(path: string) returns (dir: string)
    ensures dir == Dirname(path)
  {
    var i := |path| - 1;
    assert path[..i + 1] == path;
    while i >= 0 && path[i] != '/'
      invariant -1 <= i < |path| && Dirname(path) == Dirname(path[..i + 1])
    {
      assert path[..i + 1][..i] == path[..i];
      i := i - 1;
    }
    assert i >= 0 ==> path[..i + 1][..i] == path[..i];
    dir := if i < 0 then "" else path[..i];
  }

  /** The directory of a path is what stands before its last slash. */
  lemma {:induction false} DirnameSplits(dir: string, name: string)
    requires forall k :: 0 <= k < |name| ==> name[k] != '/'
    ensures Dirname(dir + "/" + name) == dir && Dirname(name) == ""
  {
    var path := dir + "/" + name;
    if name != "" {
      var init := name[..|name| - 1];
      DirnameSplits(dir, init);
      assert path[..|path| - 1] == dir + "/" + init && path[|path| - 1] == name[|name| - 1];
    } else {
      assert path[|path| - 1] == '/' && path[..|path| - 1] == dir;
    }
  }

  /** resolve-path: well-known roots and absolute paths stay as they are. */
  function ResolvePath(inc: string, current: string): string {
    if "stage0/" <= inc || "stage1/" <= inc || "stdlib/" <= inc || "/" <= inc || current == "" then inc
    else current + "/" + (if "./" <= inc then inc[2..] else inc)
  }

  // ---------- files ----------

  /** The token lists of the files that can be read and are not empty. */
  type Files = map<string, seq<string>>

  function PlainPath(p: string): string {
    if "strlit:" <= p then p[7..] else p
  }

  /** A file is looked up as it is, then under `bootstrap/`, then under `stdlib/`. */
  function LoadTokens(files: Files, path: string): Option<seq<string>> {
    var p := PlainPath(path);
    if p in files then Some(files[p])
    else if "bootstrap/" + p in files then Some(files["bootstrap/" + p])
    else if "stdlib/" + p in files then Some(files["stdlib/" + p])
    else None
  }

  /** A path that is a file wins over the same path under `bootstrap/`, and that over `stdlib/`;
      the mark of a string literal does not count. */
  lemma {:induction false} LookupOrder(files: Files, path: string)
    requires !("strlit:" <= path)
    ensures LoadTokens(files, "strlit:" + path) == LoadTokens(files, path)
    ensures path in files ==> LoadTokens(files, path) == Some(files[path])
    ensures path !in files && "bootstrap/" + path in files ==>
              LoadTokens(files, path) == Some(files["bootstrap/" + path])
    ensures path !in files && "bootstrap/" + path !in files && "stdlib/" + path in files ==>
              LoadTokens(files, path) == Some(files["stdlib/" + path])
    ensures LoadTokens(files, path).None? ==>
              path !in files && "bootstrap/" + path !in files && "stdlib/" + path !in files
  {
    assert ("strlit:" + path)[7..] == path;
  }

  /** Relative paths are seen from the current directory; those from the roots and the root
      directory are not. */
  lemma {:induction false} ResolveCases(path: string, current: string)
    ensures ResolvePath("stdlib/" + path, current) == "stdlib/" + path
    ensures ResolvePath("stage0/" + path, current) == "stage0/" + path
    ensures ResolvePath("stage1/" + path, current) == "stage1/" + path
    ensures ResolvePath("/" + path, current) == "/" + path && ResolvePath(path, "") == path
    ensures current != "" ==> ResolvePath("./" + path, current) == current + "/" + path
    ensures current != "" && path != "" && path[0] != 's' && path[0] != '/' && path[0] != '.' ==>
              ResolvePath(path, current) == current + "/" + path
  {
    var p := "./" + path;
    assert p[2..] == path && p[0] == '.' && "./" <= p;
    assert "stage0/"[0] == "stage1/"[0] == "stdlib/"[0] == 's' && "/"[0] == '/';
    OtherStart("stage0/", p);
    OtherStart("stage1/", p);
    OtherStart("stdlib/", p);
    OtherStart("/", p);
    if path != "" && path[0] != 's' && path[0] != '/' && path[0] != '.' {
      OtherStart("stage0/", path);
      OtherStart("stage1/", path);
      OtherStart("stdlib/", path);
      OtherStart("/", path);
      OtherStart("./", path);
    }
  }

  lemma {:induction false} OtherStart(root: string, path: string)
    requires root != "" && path != "" && path[0] != root[0]
    ensures !(root <= path)
  {
  }

  /** A file's forms. */
  function Load(files: Files, path: string): Option<seq<Tree>> {
    match LoadTokens(files, path)
    case None => None
    case Some(ts) => Some(TopKids(ts, 0))
  }

  /** parse-file-into */
  method ParseFileInto(files: Files, path: string, a: Arena) returns (root: int)
    requires Valid(a.Now())
    modifies a
    ensures match LoadTokens(files, path)
            case None => root == NONE && a.Now() == old(a.Now())
            case Some(ts) => Added(old(a.Now()), a.Now(), root, TopTree(ts))
  {
    var p := PlainPath(path);
    if p !in files {
      var alt := "bootstrap/" + p;
      if alt !in files {
        var alt2 := "stdlib/" + p;
        if alt2 !in files {
          return NONE;
        }
        p := alt2;
      } else {
        p := alt;
      }
    }
    root := ParseTop(a, files[p]);
  }

  /** The path strings that load: finitely many, since there are finitely many files. */
  ghost function Loadable(files: Files): set<string> {
    var base := files.Keys + (set k | k in files.Keys && "bootstrap/" <= k :: k[10..]) +
                (set k | k in files.Keys && "stdlib/" <= k :: k[7..]);
    base + set b | b in base :: "strlit:" + b
  }

  lemma {:induction false} LoadsAreLoadable(files: Files, path: string)
    requires Load(files, path).Some?
    ensures path in Loadable(files)
  {
    var p := PlainPath(path);
    assert "strlit:" <= path ==> path == "strlit:" + p;
    var b, l := "bootstrap/" + p, "stdlib/" + p;
    assert b[10..] == p && l[7..] == p;
  }

  ghost function Unvisited(files: Files, visited: seq<string>): set<string> {
    Loadable(files) - set p | p in visited
  }

  lemma {:induction false} VisitShrinks(files: Files, visited: seq<string>, path: string)
    requires path !in visited && Load(files, path).Some?
    ensures Unvisited(files, visited + [path]) < Unvisited(files, visited)
  {
    LoadsAreLoadable(files, path);
    assert path in Unvisited(files, visited) && path !in Unvisited(files, visited + [path]);
  }

  lemma {:induction false} VisitsFall(files: Files, visited: seq<string>, later: seq<string>)
    requires visited <= later
    ensures Unvisited(files, later) <= Unvisited(files, visited)
  {
  }

  // ---------- the pure expansion ----------

  /** How a list is taken: as an ordinary form, as an include of a path, or as an include
      that stops the expansion. */
  datatype Reading = Ordinary | Names(path: string) | Malformed

  function ReadInclude(kids: seq<Tree>): Reading {
    if kids == [] || !kids[0].kind.AtomKind? || kids[0].value != "include" || |kids| != 2 then Ordinary
    else if !kids[1].kind.AtomKind? || kids[1].value == "" then Malformed
    else if "strlit:" <= kids[1].value && Printable(kids[1].value[7..]) then Names(kids[1].value[7..])
    else Ordinary
  }

  predicate IsModule(t: Tree) {
    t.kids != [] && t.kids[0].kind.AtomKind? && t.kids[0].value == "module"
  }

  /** The trees that replace a list of children, and the paths visited by then. */
  datatype Spliced = Spliced(trees: seq<Tree>, visited: seq<string>)

  function Before(trees: seq<Tree>, r: Option<Spliced>): Option<Spliced> {
    match r
    case None => None
    case Some(x) => Some(Spliced(trees + x.trees, x.visited))
  }

  predicate NoRepeats(paths: seq<string>) {
    forall i, j :: 0 <= i < j < |paths| ==> paths[i] != paths[j]
  }

  /** Children with their includes spliced, in order.  An include is served at the first
      visit of its path only; one that cannot be loaded stays; an empty list vanishes.
      Without `allow`, children are taken as they are. */
  function Expand(files: Files, kids: seq<Tree>, visited: seq<string>, dir: string, allow: bool): (r: Option<Spliced>)
    ensures r.Some? ==> visited <= r.value.visited
    ensures r.Some? && NoRepeats(visited) ==> NoRepeats(r.value.visited)
    decreases Unvisited(files, visited), kids
  {
    if kids == [] then Some(Spliced([], visited))
    else
      match ExpandOne(files, kids[0], visited, dir, allow)
      case None => None
      case Some(x) =>
        VisitsFall(files, visited, x.visited);
        Before(x.trees, Expand(files, kids[1..], x.visited, dir, allow))
  }

  function ExpandOne(files: Files, t: Tree, visited: seq<string>, dir: string, allow: bool): (r: Option<Spliced>)
    ensures r.Some? ==> visited <= r.value.visited
    ensures r.Some? && NoRepeats(visited) ==> NoRepeats(r.value.visited)
    decreases Unvisited(files, visited), t
  {
    if !t.kind.ListKind? || !allow then Some(Spliced([t], visited))
    else if t.kids == [] then Some(Spliced([], visited))
    else match ReadInclude(t.kids)
         case Ordinary => Some(Spliced([t], visited))
         case Malformed => None
         case Names(inc) =>
           var path := ResolvePath(inc, dir);
           if path == "" then None
           else if path in visited then Some(Spliced([], visited))
           else match Load(files, path)
                case None => Some(Spliced([t], visited + [path]))
                case Some(forms) =>
                  VisitShrinks(files, visited, path);
                  Splice(files, forms, visited + [path], Dirname(path))
  }

  /** A file's forms: modules are opened, the others are taken as they are. */
  function Splice(files: Files, forms: seq<Tree>, visited: seq<string>, dir: string): (r: Option<Spliced>)
    ensures r.Some? ==> visited <= r.value.visited
    ensures r.Some? && NoRepeats(visited) ==> NoRepeats(r.value.visited)
    decreases Unvisited(files, visited), forms
  {
    if forms == [] then Some(Spliced([], visited))
    else if IsModule(forms[0]) then
      match Expand(files, forms[0].kids, visited, dir, true)
      case None => None
      case Some(x) =>
        VisitsFall(files, visited, x.visited);
        Before(x.trees, Splice(files, forms[1..], x.visited, dir))
    else Before([forms[0]], Splice(files, forms[1..], visited, dir))
  }

  // ---------- the expansion in arenas ----------

  /** `root` has the trees `added` as further last children; every tree that does not
      contain `root` is as it was. */
  ghost predicate Grew(s: Store, t: Store, root: int, added: seq<Tree>) {
    Valid(s) && Valid(t) && s.Has(root) && s.kinds <= t.kinds && s.values <= t.values &&
    Kids(t, root) == Kids(s, root) + added && forall x :: Elsewhere(s, root, x) ==> Unchanged(s, t, x)
  }

  ghost predicate Elsewhere(s: Store, root: int, x: int)
    requires Shape(s)
  {
    s.Has(x) && root !in Under(s, x)
  }

  ghost predicate Unchanged(s: Store, t: Store, x: int)
    requires Shape(s) && Shape(t) && s.Has(x)
  {
    t.Has(x) && Decode(t, x) == Decode(s, x) && Under(t, x) == Under(s, x)
  }

  lemma {:induction false} GrewNone(s: Store, root: int)
    requires Valid(s) && s.Has(root)
    ensures Grew(s, s, root, [])
  {
    assert Kids(s, root) + [] == Kids(s, root);
  }

  lemma {:induction false} GrewIsValid(s: Store, t: Store, root: int, added: seq<Tree>)
    requires Grew(s, t, root, added)
    ensures Valid(t) && t.Has(root)
  {
  }

  lemma {:induction false} GrewMore(s: Store, t: Store, u: Store, root: int, a: seq<Tree>, b: seq<Tree>)
    requires Grew(s, t, root, a) && Grew(t, u, root, b)
    ensures Grew(s, u, root, a + b)
  {
    hide OnePredecessor, Decode, Under, Kids;
    Cat(Kids(s, root), a, b);
    forall x | Elsewhere(s, root, x) ensures Unchanged(s, u, x) {
      assert Unchanged(s, t, x);
      assert Elsewhere(t, root, x);
    }
  }

  /** A tree added behind the arena and then linked below `root`. */
  lemma {:induction false} GrewByTree(s: Store, t: Store, root: int, id: int, tree: Tree)
    requires Added(s, t, id, tree) && s.Has(root)
    ensures Linkable(t, root, LastId(t, root), id)
    ensures Grew(s, Link(t, root, LastId(t, root), id), root, [tree])
  {
    hide OnePredecessor, Decode, Under;
    var prev := LastId(t, root);
    FirstAddedIsRoot(s, t);
    PrefixKids(s, t, root);
    LastOfPrefix(s, t, root);
    LinkAppends(t, root, prev, id);
    forall x | Elsewhere(s, root, x) ensures Unchanged(s, Link(t, root, prev, id), x) {
      PrefixDecode(s, t, x);
      LinkKeeps(t, root, prev, id, x);
    }
  }

  lemma {:induction false} LastOfPrefix(s: Store, t: Store, root: int)
    requires Shape(s) && Shape(t) && Prefix(s, t) && s.Has(root)
    ensures LastId(t, root) < s.Size()
  {
    PrefixKids(s, t, root);
  }

  /** copy-subtree followed by append-child */
  method CopyAppend(src: Arena, dst: Arena, dstRoot: int, node: int)
    requires src != dst && Valid(src.Now()) && Valid(dst.Now()) && src.Now().Has(node) && dst.Now().Has(dstRoot)
    modifies dst
    ensures Grew(old(dst.Now()), dst.Now(), dstRoot, [Decode(src.Now(), node)])
  {
    hide OnePredecessor, Decode, Under, Grew, Kids, Linkable;
    ghost var d := dst.Now();
    ghost var tree := Decode(src.Now(), node);
    var copied := CopySubtree(src, dst, node);
    GrewByTree(d, dst.Now(), dstRoot, copied, tree);
    AppendChild(dst, dstRoot, copied);
  }

  /** The growable list of visited paths. */
  class Visited {
    var paths: seq<string>

    constructor ()
      ensures paths == []
    {
      paths := [];
    }

    /** array-str-append */
    method Append(path: string)
      modifies this
      ensures paths == old(paths) + [path]
    {
      paths := paths + [path];
    }

    /** array-str-contains */
    method Contains(path: string) returns (found: bool)
      ensures found == (path in paths)
    {
      var i := 0;
      while i < |paths|
        invariant 0 <= i <= |paths| && path !in paths[..i]
      {
        if paths[i] == path {
          return true;
        }
        assert paths[..i + 1] == paths[..i] + [paths[i]];
        i := i + 1;
      }
      assert paths[..i] == paths;
      return false;
    }
  }

  /** The first three children of a node, by links. */
  lemma {:induction false} KidLinks(s: Store, id: int)
    requires Shape(s) && s.Has(id)
    ensures var kids := Decode(s, id).kids;
            var h := s.first[id];
            LinkIn(s, h) && (h == NONE <==> kids == []) &&
            (h != NONE ==>
               var p := s.next[h];
               LinkIn(s, p) && kids[0] == Decode(s, h) && (p == NONE <==> |kids| == 1) &&
               (p != NONE ==> kids[1] == Decode(s, p) && (s.next[p] == NONE <==> |kids| == 2)))
  {
    hide Decode;
    DecodeKids(s, id);
    var h := s.first[id];
    ChainOfNone(s);
    if h != NONE {
      ChainHead(s, h);
      if s.next[h] != NONE {
        ChainHead(s, s.next[h]);
        if s.next[s.next[h]] != NONE {
          ChainHead(s, s.next[s.next[h]]);
        }
      }
    }
  }

  lemma {:induction false} DecodeIsNode(s: Store, id: int)
    requires Shape(s) && s.Has(id)
    ensures Decode(s, id).kind == s.kinds[id] && Decode(s, id).value == s.values[id]
    ensures Decode(s, id).kids == Kids(s, id)
  {
  }

  /** The tests of expand-children on a list that is not empty. */
  method ReadIncludeAt(src: Arena, child: int) returns (r: Reading)
    requires Valid(src.Now()) && src.Now().Has(child) && Decode(src.Now(), child).kids != []
    ensures r == ReadInclude(Decode(src.Now(), child).kids)
  {
    hide Decode, OnePredecessor;
    ghost var s := src.Now();
    KidLinks(s, child);
    var head := src.FirstChild(child);
    DecodeIsNode(s, head);
    if src.Kind(head) != AtomKind || src.Value(head) != "include" {
      return Ordinary;
    }
    var pathNode := src.NextSibling(head);
    var extra := src.NextSibling(pathNode);
    if pathNode == NONE || extra != NONE {
      return Ordinary;
    }
    DecodeIsNode(s, pathNode);
    if src.Kind(pathNode) != AtomKind {
      return Malformed;
    }
    var incPath := src.Value(pathNode);
    if |incPath| <= 0 {
      return Malformed;
    }
    if !("strlit:" <= incPath) {
      return Ordinary;
    }
    incPath := incPath[7..];
    var ok := IsPrintablePath(incPath);
    return if ok then Names(incPath) else Ordinary;
  }

  /** Whether a form is headed by the atom `module`. */
  method IsModuleAt(src: Arena, node: int) returns (r: bool)
    requires Valid(src.Now()) && src.Now().Has(node)
    ensures r == IsModule(Decode(src.Now(), node))
  {
    hide Decode, OnePredecessor;
    KidLinks(src.Now(), node);
    var head := src.FirstChild(node);
    if head == NONE {
      return false;
    }
    DecodeIsNode(src.Now(), head);
    return src.Kind(head) == AtomKind && src.Value(head) == "module";
  }

  /** `root` has further last children, and every tree that does not contain it is as it was. */
  ghost predicate GrewSome(s: Store, t: Store, root: int) {
    exists added :: Grew(s, t, root, added)
  }

  lemma {:induction false} GrewThenSome(s: Store, t: Store, u: Store, root: int, a: seq<Tree>)
    requires Grew(s, t, root, a) && GrewSome(t, u, root)
    ensures GrewSome(s, u, root)
  {
    hide Grew;
    var b :| Grew(t, u, root, b);
    GrewMore(s, t, u, root, a, b);
  }

  /** How a step from store `s` and paths `v` ends, the pure result being `r`.  If it fails, the
      children added by then stay. */
  ghost predicate Ends(s: Store, v: seq<string>, root: int, r: Option<Spliced>, t: Store, v': seq<string>, rc: int) {
    match r
    case None => rc == -1 && GrewSome(s, t, root) && v <= v'
    case Some(x) => rc == 0 && Grew(s, t, root, x.trees) && v' == x.visited
  }

  lemma {:induction false} BeforeBefore(a: seq<Tree>, b: seq<Tree>, r: Option<Spliced>)
    ensures Before(a, Before(b, r)) == Before(a + b, r) && Before([], r) == r
    ensures Before(a, None) == None
  {
    if r.Some? {
      Cat(a, b, r.value.trees);
      assert [] + r.value.trees == r.value.trees;
    }
  }

  /** `Expand` from a node of the arena on. */
  function ExpandFrom(files: Files, s: Store, c: int, v: seq<string>, dir: string, allow: bool): Option<Spliced>
    requires Shape(s) && LinkIn(s, c)
  {
    Expand(files, DecodeChain(s, c), v, dir, allow)
  }

  lemma {:induction false} ExpandStep(files: Files, s: Store, c: int, v: seq<string>, dir: string, allow: bool)
    requires Shape(s) && s.Has(c)
    ensures LinkIn(s, s.next[c])
    ensures ExpandFrom(files, s, c, v, dir, allow) ==
            match ExpandOne(files, Decode(s, c), v, dir, allow)
            case None => None
            case Some(x) => Before(x.trees, ExpandFrom(files, s, s.next[c], x.visited, dir, allow))
  {
    hide ExpandOne, Decode;
    ChainHead(s, c);
    assert DecodeChain(s, c)[1..] == DecodeChain(s, s.next[c]);
  }

  /** expand-children: the children of `dstRoot` grow by exactly the pure expansion; every
      tree of `dst` elsewhere stays. */
  method ExpandChildren(files: Files, src: Arena, srcRoot: int, dst: Arena, dstRoot: int, visited: Visited,
          dir: string, allow: bool)
    returns (rc: int)
    requires src != dst && Valid(src.Now()) && Valid(dst.Now()) && src.Now().Has(srcRoot) && dst.Now().Has(dstRoot)
    modifies dst, visited
    ensures Ends(old(dst.Now()), old(visited.paths), dstRoot,
                 Expand(files, Decode(src.Now(), srcRoot).kids, old(visited.paths), dir, allow),
                 dst.Now(), visited.paths, rc)
    decreases Unvisited(files, visited.paths), 1
  {
    hide OnePredecessor, Decode, DecodeChain, Under, Kids, Grew, Expand, ExpandOne, Before, Unvisited;
    ghost var s, d, v := src.Now(), dst.Now(), visited.paths;
    KidLinks(s, srcRoot);
    DecodeKids(s, srcRoot);
    var child := src.FirstChild(srcRoot);
    ghost var done: seq<Tree> := [];
    GrewNone(d, dstRoot);
    BeforeBefore([], [], ExpandFrom(files, s, child, v, dir, allow));
    while child != NONE
      invariant src.Now() == s && LinkIn(s, child)
      invariant Grew(d, dst.Now(), dstRoot, done) && v <= visited.paths
      invariant ExpandFrom(files, s, s.first[srcRoot], v, dir, allow) ==
                Before(done, ExpandFrom(files, s, child, visited.paths, dir, allow))
      decreases Rank(s, child)
    {
      ghost var one := ExpandOne(files, Decode(s, child), visited.paths, dir, allow);
      ghost var d1 := dst.Now();
      GrewIsValid(d, d1, dstRoot, done);
      ExpandStep(files, s, child, visited.paths, dir, allow);
      VisitsFall(files, v, visited.paths);
      BeforeBefore(done, [], None);
      rc := ExpandChild(files, src, child, dst, dstRoot, visited, dir, allow);
      if rc == -1 {
        GrewThenSome(d, d1, dst.Now(), dstRoot, done);
        return;
      }
      GrewMore(d, d1, dst.Now(), dstRoot, done, one.value.trees);
      child := src.NextSibling(child);
      BeforeBefore(done, one.value.trees, ExpandFrom(files, s, child, visited.paths, dir, allow));
      done := done + one.value.trees;
    }
    NothingLeft(files, s, visited.paths, dir, allow, done);
    rc := 0;
  }

  lemma {:induction false} NothingLeft(files: Files, s: Store, v: seq<string>, dir: string, allow: bool,
          done: seq<Tree>)
    requires Shape(s)
    ensures Before(done, ExpandFrom(files, s, NONE, v, dir, allow)) == Some(Spliced(done, v))
    ensures Before(done, SpliceFrom(files, s, NONE, v, dir)) == Some(Spliced(done, v))
  {
    assert done + [] == done;
  }

  /** The loop body of expand-children. */
  method ExpandChild(files: Files, src: Arena, child: int, dst: Arena, dstRoot: int, visited: Visited, dir: string,
          allow: bool)
    returns (rc: int)
    requires src != dst && Valid(src.Now()) && Valid(dst.Now()) && src.Now().Has(child) && dst.Now().Has(dstRoot)
    modifies dst, visited
    ensures Ends(old(dst.Now()), old(visited.paths), dstRoot,
                 ExpandOne(files, Decode(src.Now(), child), old(visited.paths), dir, allow),
                 dst.Now(), visited.paths, rc)
    decreases Unvisited(files, visited.paths), 0
  {
    hide OnePredecessor, Decode, DecodeChain, Under, Kids, Grew, Expand, Before, Unvisited, ReadInclude;
    ghost var s, d := src.Now(), dst.Now();
    rc := 0;
    DecodeIsNode(s, child);
    GrewNone(d, dstRoot);
    if src.Kind(child) != ListKind || !allow {
      CopyAppend(src, dst, dstRoot, child);
      return;
    }
    KidLinks(s, child);
    if src.FirstChild(child) == NONE {
      return;
    }
    var reading := ReadIncludeAt(src, child);
    match reading
    case Ordinary => CopyAppend(src, dst, dstRoot, child);
    case Malformed => rc := -1;
    case Names(inc) =>
      var path := ResolvePath(inc, dir);
      if |path| <= 0 {
        return -1;
      }
      var seen := visited.Contains(path);
      if seen {
        return;
      }
      visited.Append(path);
      var tmp := new Arena();
      var incRoot := ParseFileInto(files, path, tmp);
      if incRoot == NONE {
        CopyAppend(src, dst, dstRoot, child);
      } else {
        VisitShrinks(files, old(visited.paths), path);
        var nextDir := DirnameOf(path);
        rc := SpliceForms(files, tmp, incRoot, dst, dstRoot, visited, nextDir);
      }
  }

  /** The loop of expand-children over the forms of a parsed file, behind the mark that
      parse-top puts first. */
  method SpliceForms(files: Files, tmp: Arena, incRoot: int, dst: Arena, dstRoot: int, visited: Visited, dir: string)
    returns (rc: int)
    requires tmp != dst && Valid(tmp.Now()) && Valid(dst.Now()) && tmp.Now().Has(incRoot) && dst.Now().Has(dstRoot)
    requires Decode(tmp.Now(), incRoot).kids != []
    modifies dst, visited
    ensures Ends(old(dst.Now()), old(visited.paths), dstRoot,
                 Splice(files, Decode(tmp.Now(), incRoot).kids[1..], old(visited.paths), dir),
                 dst.Now(), visited.paths, rc)
    decreases Unvisited(files, visited.paths), 2
  {
    hide OnePredecessor, Decode, DecodeChain, Under, Kids, Grew, Expand, Splice, Before, Unvisited, IsModule;
    ghost var s, d, v := tmp.Now(), dst.Now(), visited.paths;
    KidLinks(s, incRoot);
    DecodeKids(s, incRoot);
    ChainHead(s, s.first[incRoot]);
    var mtChild := tmp.NextSibling(tmp.FirstChild(incRoot));
    ghost var start := mtChild;
    assert Decode(s, incRoot).kids[1..] == DecodeChain(s, start);
    ghost var done: seq<Tree> := [];
    GrewNone(d, dstRoot);
    BeforeBefore([], [], SpliceFrom(files, s, start, v, dir));
    while mtChild != NONE
      invariant tmp.Now() == s && LinkIn(s, mtChild)
      invariant Grew(d, dst.Now(), dstRoot, done) && v <= visited.paths
      invariant SpliceFrom(files, s, start, v, dir) == Before(done, SpliceFrom(files, s, mtChild, visited.paths, dir))
      decreases Rank(s, mtChild)
    {
      ghost var d1 := dst.Now();
      GrewIsValid(d, d1, dstRoot, done);
      ghost var one := SpliceOne(files, Decode(s, mtChild), visited.paths, dir);
      SpliceStep(files, s, mtChild, visited.paths, dir);
      VisitsFall(files, v, visited.paths);
      var isMod := IsModuleAt(tmp, mtChild);
      if isMod {
        BeforeBefore(done, [], None);
        rc := ExpandChildren(files, tmp, mtChild, dst, dstRoot, visited, dir, true);
        if rc == -1 {
          GrewThenSome(d, d1, dst.Now(), dstRoot, done);
          return;
        }
      } else {
        CopyAppend(tmp, dst, dstRoot, mtChild);
      }
      GrewMore(d, d1, dst.Now(), dstRoot, done, one.value.trees);
      mtChild := tmp.NextSibling(mtChild);
      BeforeBefore(done, one.value.trees, SpliceFrom(files, s, mtChild, visited.paths, dir));
      done := done + one.value.trees;
    }
    NothingLeft(files, s, visited.paths, dir, true, done);
    rc := 0;
  }

  function SpliceFrom(files: Files, s: Store, c: int, v: seq<string>, dir: string): Option<Spliced>
    requires Shape(s) && LinkIn(s, c)
  {
    Splice(files, DecodeChain(s, c), v, dir)
  }

  /** What one form of a file contributes. */
  function SpliceOne(files: Files, t: Tree, v: seq<string>, dir: string): (r: Option<Spliced>)
    ensures r.Some? ==> v <= r.value.visited
  {
    if IsModule(t) then Expand(files, t.kids, v, dir, true) else Some(Spliced([t], v))
  }

  lemma {:induction false} SpliceStep(files: Files, s: Store, c: int, v: seq<string>, dir: string)
    requires Shape(s) && s.Has(c)
    ensures LinkIn(s, s.next[c])
    ensures SpliceFrom(files, s, c, v, dir) ==
            match SpliceOne(files, Decode(s, c), v, dir)
            case None => None
            case Some(x) => Before(x.trees, SpliceFrom(files, s, s.next[c], x.visited, dir))
  {
    hide Expand, Decode;
    ChainHead(s, c);
    assert DecodeChain(s, c)[1..] == DecodeChain(s, s.next[c]);
  }

  // ---------- expand-root ----------

  /** A parsed file stands for its first form, if it has one. */
  function RootOf(t: Tree): Tree {
    if |t.kids| > 1 && t.kids[0].kind.AtomKind? && t.kids[0].value == "multi-top" then t.kids[1] else t
  }

  /** The expansion of a whole file.  The file itself counts as visited. */
  function ExpandedRoot(files: Files, path: string): Option<Tree> {
    match LoadTokens(files, path)
    case None => None
    case Some(ts) =>
      var root := RootOf(TopTree(ts));
      match Expand(files, root.kids, [path], Dirname(path), true)
      case None => None
      case Some(x) => Some(Tree(root.kind, root.value, x.trees))
  }

  method PickRoot(tmp: Arena, tmpRoot: int) returns (actual: int)
    requires Valid(tmp.Now()) && tmp.Now().Has(tmpRoot)
    ensures tmp.Now().Has(actual) && Decode(tmp.Now(), actual) == RootOf(Decode(tmp.Now(), tmpRoot))
  {
    hide OnePredecessor, Decode;
    KidLinks(tmp.Now(), tmpRoot);
    actual := tmpRoot;
    var head := tmp.FirstChild(tmpRoot);
    if head != NONE {
      DecodeIsNode(tmp.Now(), head);
      if tmp.Kind(head) == AtomKind && tmp.Value(head) == "multi-top" {
        var first := tmp.NextSibling(head);
        if first != NONE {
          actual := first;
        }
      }
    }
  }

  /** Every tree that was there is as it was. */
  ghost predicate Keeps(s: Store, t: Store)
    requires Valid(s) && Valid(t)
  {
    forall x :: s.Has(x) ==> t.Has(x) && Decode(t, x) == Decode(s, x)
  }

  /** expand-root: if it fails, the new root may be there, and nothing else has changed. */
  method ExpandRoot(files: Files, path: string, out: Arena) returns (rc: int, outRoot: int)
    requires Valid(out.Now())
    modifies out
    ensures Valid(out.Now())
    ensures match ExpandedRoot(files, path)
            case None => rc == -1 && Keeps(old(out.Now()), out.Now())
            case Some(t) => rc == 0 && RootAdded(old(out.Now()), out.Now(), outRoot, t)
  {
    hide OnePredecessor, Decode, DecodeChain, Under, Kids, Grew, Expand, TopTree, RootOf;
    rc, outRoot := -1, NONE;
    var tmp := new Arena();
    var tmpRoot := ParseFileInto(files, path, tmp);
    if tmpRoot == NONE {
      return;
    }
    var actual := PickRoot(tmp, tmpRoot);
    DecodeIsNode(tmp.Now(), actual);
    ghost var root := Decode(tmp.Now(), actual);
    ghost var before := out.Now();
    WithNodeValid(before, root.kind, root.value);
    outRoot := out.AddNode(tmp.Kind(actual), tmp.Value(actual));
    ghost var d := out.Now();
    var visited := new Visited();
    visited.Append(path);
    assert visited.paths == [path];
    var base := DirnameOf(path);
    rc := ExpandChildren(files, tmp, actual, out, outRoot, visited, base, true);
    ghost var x := Expand(files, root.kids, [path], base, true);
    if x.Some? {
      GrewIsValid(d, out.Now(), outRoot, x.value.trees);
      RootGrew(before, d, out.Now(), outRoot, root, x.value.trees);
    } else {
      RootLeft(before, d, out.Now(), outRoot, root);
    }
  }

  /** `id` is the tree `t`, and every tree that was there is as it was. */
  ghost predicate RootAdded(s: Store, t: Store, id: int, tree: Tree) {
    Valid(s) && Valid(t) && id == s.Size() && t.Has(id) && Decode(t, id) == tree && Keeps(s, t)
  }

  lemma {:induction false} RootGrew(before: Store, s: Store, t: Store, id: int, root: Tree, trees: seq<Tree>)
    requires Valid(before) && s == WithNode(before, root.kind, root.value) && id == before.Size()
    requires Grew(s, t, id, trees)
    ensures RootAdded(before, t, id, Tree(root.kind, root.value, trees))
  {
    hide OnePredecessor, Under;
    WithNodeValid(before, root.kind, root.value);
    assert Kids(s, id) == [];
    assert [] + trees == trees;
    forall x | before.Has(x) ensures t.Has(x) && Decode(t, x) == Decode(before, x) {
      PrefixDecode(before, s, x);
      UnderBelow(before, x);
      assert Elsewhere(s, id, x);
      assert Unchanged(s, t, x);
    }
  }

  lemma {:induction false} RootLeft(before: Store, s: Store, t: Store, id: int, root: Tree)
    requires Valid(before) && s == WithNode(before, root.kind, root.value) && id == before.Size()
    requires GrewSome(s, t, id)
    ensures Valid(t) && Keeps(before, t)
  {
    hide Grew;
    var trees :| Grew(s, t, id, trees);
    RootGrew(before, s, t, id, root, trees);
  }

  lemma {:induction false} UnderBelow(s: Store, x: int)
    requires Shape(s) && s.Has(x)
    ensures s.Size() !in Under(s, x)
  {
  }

  // ---------- what the expansion achieves ----------

  /** Without `allow` nothing is touched. */
  lemma {:induction false} ExpandOff(files: Files, kids: seq<Tree>, visited: seq<string>, dir: string)
    ensures Expand(files, kids, visited, dir, false) == Some(Spliced(kids, visited))
  {
    if kids != [] {
      ExpandOff(files, kids[1..], visited, dir);
      assert [kids[0]] + kids[1..] == kids;
    }
  }

  /** A child that is taken as it is. */
  predicate IsPlain(t: Tree) {
    !t.kind.ListKind? || (t.kids != [] && ReadInclude(t.kids).Ordinary?)
  }

  /** How often a file's forms hold `x`, modules being opened. */
  function Held(forms: seq<Tree>, x: Tree): nat {
    if forms == [] then 0
    else
      (if IsModule(forms[0]) then multiset(forms[0].kids)[x] else if forms[0] == x then 1 else 0) +
      Held(forms[1..], x)
  }

  function HeldByFiles(files: Files, paths: seq<string>, x: Tree): nat {
    if paths == [] then 0
    else
      HeldByFiles(files, paths[..|paths| - 1], x) +
      match Load(files, paths[|paths| - 1]) case None => 0 case Some(forms) => Held(forms, x)
  }

  /** `r` holds the plain child `x` as often as `had` says, and as the files visited on the
      way do. */
  ghost predicate Conserves(files: Files, had: nat, visited: seq<string>, r: Spliced, x: Tree) {
    multiset(r.trees)[x] + HeldByFiles(files, visited, x) == had + HeldByFiles(files, r.visited, x)
  }

  /** Every plain child, and every plain form of each newly visited file, ends up in the
      result exactly as often as it was there. */
  lemma {:induction false} ExpandConserves(files: Files, kids: seq<Tree>, visited: seq<string>, dir: string, x: Tree)
    requires IsPlain(x) && Expand(files, kids, visited, dir, true).Some?
    ensures Conserves(files, multiset(kids)[x], visited, Expand(files, kids, visited, dir, true).value, x)
    decreases Unvisited(files, visited), kids
  {
    hide Unvisited, ExpandOne, HeldByFiles, IsPlain;
    if kids != [] {
      var one := ExpandOne(files, kids[0], visited, dir, true).value;
      ExpandOneConserves(files, kids[0], visited, dir, x);
      VisitsFall(files, visited, one.visited);
      ExpandConserves(files, kids[1..], one.visited, dir, x);
      assert [kids[0]] + kids[1..] == kids;
    }
  }

  lemma {:induction false} ExpandOneConserves(files: Files, t: Tree, visited: seq<string>, dir: string, x: Tree)
    requires IsPlain(x) && ExpandOne(files, t, visited, dir, true).Some?
    ensures Conserves(files, multiset([t])[x], visited, ExpandOne(files, t, visited, dir, true).value, x)
    decreases Unvisited(files, visited), t
  {
    hide Unvisited, Splice, Load, Held;
    if t.kind.ListKind? && t.kids != [] && ReadInclude(t.kids).Names? {
      var path := ResolvePath(ReadInclude(t.kids).path, dir);
      assert (visited + [path])[..|visited|] == visited;
      if path !in visited && Load(files, path).Some? {
        VisitShrinks(files, visited, path);
        SpliceConserves(files, Load(files, path).value, visited + [path], Dirname(path), x);
      }
    }
  }

  lemma {:induction false} SpliceConserves(files: Files, forms: seq<Tree>, visited: seq<string>, dir: string, x: Tree)
    requires IsPlain(x) && Splice(files, forms, visited, dir).Some?
    ensures Conserves(files, Held(forms, x), visited, Splice(files, forms, visited, dir).value, x)
    decreases Unvisited(files, visited), forms
  {
    hide Unvisited, Expand, HeldByFiles, IsPlain;
    if forms != [] {
      var one := SpliceOne(files, forms[0], visited, dir).value;
      if IsModule(forms[0]) {
        ExpandConserves(files, forms[0].kids, visited, dir, x);
        VisitsFall(files, visited, one.visited);
      }
      SpliceConserves(files, forms[1..], one.visited, dir, x);
    }
  }

  /** Every include among these children has been visited, seen from directory `dir`. */
  predicate Served(kids: seq<Tree>, dir: string, visited: seq<string>) {
    forall k :: 0 <= k < |kids| ==> KidServed(kids[k], dir, visited)
  }

  predicate KidServed(t: Tree, dir: string, visited: seq<string>) {
    t.kind.ListKind? && ReadInclude(t.kids).Names? ==> ResolvePath(ReadInclude(t.kids).path, dir) in visited
  }

  predicate FormsServed(forms: seq<Tree>, dir: string, visited: seq<string>) {
    forall k :: 0 <= k < |forms| && IsModule(forms[k]) ==> Served(forms[k].kids, dir, visited)
  }

  /** The includes in the modules of the files visited from position `from` on. */
  ghost predicate FilesServed(files: Files, paths: seq<string>, from: nat, visited: seq<string>) {
    forall k :: from <= k < |paths| ==> FileServed(files, paths[k], visited)
  }

  predicate FileServed(files: Files, path: string, visited: seq<string>) {
    Load(files, path).Some? ==> FormsServed(Load(files, path).value, Dirname(path), visited)
  }

  lemma {:induction false} ServedLater(files: Files, paths: seq<string>, from: nat, a: seq<string>, b: seq<string>)
    requires FilesServed(files, paths, from, a) && a <= b
    ensures FilesServed(files, paths, from, b)
  {
  }

  lemma {:induction false} FilesJoin(files: Files, from: nat, a: seq<string>, b: seq<string>)
    requires from <= |a| && a <= b && FilesServed(files, a, from, a) && FilesServed(files, b, |a|, b)
    ensures FilesServed(files, b, from, b)
  {
    hide FileServed;
    ServedLater(files, a, from, a, b);
    forall k | from <= k < |b| ensures FileServed(files, b[k], b) {
      if k < |a| {
        assert b[k] == a[k];
      }
    }
  }

  /** No include is lost: after the expansion, every include of a printable path among the
      children, and in the modules of every file visited on the way, has been visited. */
  lemma {:induction false} ExpandServesAll(files: Files, kids: seq<Tree>, visited: seq<string>, dir: string)
    requires Expand(files, kids, visited, dir, true).Some?
    ensures var v := Expand(files, kids, visited, dir, true).value.visited;
            Served(kids, dir, v) && FilesServed(files, v, |visited|, v)
    decreases Unvisited(files, visited), kids
  {
    hide Unvisited, ExpandOne, FilesServed, KidServed;
    if kids == [] {
      NoFiles(files, visited);
    } else {
      var one := ExpandOne(files, kids[0], visited, dir, true).value;
      ExpandOneServes(files, kids[0], visited, dir);
      VisitsFall(files, visited, one.visited);
      ExpandServesAll(files, kids[1..], one.visited, dir);
      var v := Expand(files, kids, visited, dir, true).value.visited;
      KidLater(kids[0], dir, one.visited, v);
      FilesJoin(files, |visited|, one.visited, v);
      forall k | 0 <= k < |kids| ensures KidServed(kids[k], dir, v) {
        if k > 0 {
          assert kids[k] == kids[1..][k - 1];
        }
      }
    }
  }

  lemma {:induction false} NoFiles(files: Files, visited: seq<string>)
    ensures FilesServed(files, visited, |visited|, visited)
  {
  }

  lemma {:induction false} KidLater(t: Tree, dir: string, a: seq<string>, b: seq<string>)
    requires KidServed(t, dir, a) && a <= b
    ensures KidServed(t, dir, b)
  {
  }

  lemma {:induction false} ExpandOneServes(files: Files, t: Tree, visited: seq<string>, dir: string)
    requires ExpandOne(files, t, visited, dir, true).Some?
    ensures var v := ExpandOne(files, t, visited, dir, true).value.visited;
            KidServed(t, dir, v) && FilesServed(files, v, |visited|, v)
    decreases Unvisited(files, visited), t
  {
    hide Unvisited, Splice, Load, FormsServed;
    if t.kind.ListKind? && ReadInclude(t.kids).Names? {
      var path := ResolvePath(ReadInclude(t.kids).path, dir);
      if path !in visited && Load(files, path).Some? {
        VisitShrinks(files, visited, path);
        SpliceServes(files, Load(files, path).value, visited + [path], Dirname(path));
        var v := ExpandOne(files, t, visited, dir, true).value.visited;
        assert v[|visited|] == path;
      }
    }
  }

  lemma {:induction false} SpliceServes(files: Files, forms: seq<Tree>, visited: seq<string>, dir: string)
    requires Splice(files, forms, visited, dir).Some?
    ensures var v := Splice(files, forms, visited, dir).value.visited;
            FormsServed(forms, dir, v) && FilesServed(files, v, |visited|, v)
    decreases Unvisited(files, visited), forms
  {
    hide Unvisited, Expand, FilesServed, KidServed, IsModule;
    if forms == [] {
      NoFiles(files, visited);
    } else {
      var one := SpliceOne(files, forms[0], visited, dir).value;
      var v := Splice(files, forms, visited, dir).value.visited;
      if IsModule(forms[0]) {
        ExpandServesAll(files, forms[0].kids, visited, dir);
        VisitsFall(files, visited, one.visited);
        forall k | 0 <= k < |forms[0].kids| ensures KidServed(forms[0].kids[k], dir, v) {
          KidLater(forms[0].kids[k], dir, one.visited, v);
        }
      } else {
        NoFiles(files, visited);
      }
      SpliceServes(files, forms[1..], one.visited, dir);
      FilesJoin(files, |visited|, one.visited, v);
      forall k | 0 <= k < |forms| && IsModule(forms[k]) ensures Served(forms[k].kids, dir, v) {
        if k > 0 {
          assert forms[k] == forms[1..][k - 1];
        }
      }
    }
  }
}
