/** Include merging of stage0 (fs.c).  Where the C code exits, the model returns None. */
module Includes {
  import opened Wrappers
  import opened Parsing
  import opened Rendering
  import opened Sexprs

  // ---------- paths ----------

  /** The file system as the compiler sees it: which path strings open, what `realpath`
      makes of them, and the readable files' contents. */
  datatype Disk = Disk(present: set<string>, canon: map<string, string>, files: map<string, string>, dirs: seq<string>)

  predicate IsSlash(c: char) {
    c == '/' || c == '\\'
  }

  /** path_join2 */
  function Join(a: string, b: string): string {
    if a != "" && !IsSlash(a[|a| - 1]) then a + "/" + b else a + b
  }

  /** dir_name: what precedes the last slash */
  function DirName(path: string): string {
    if path == "" then "."
    else if IsSlash(path[|path| - 1]) then path[..|path| - 1]
    else DirName(path[..|path| - 1])
  }

  predicate IsRelative(inc: string) {
    "./" <= inc || "../" <= inc
  }

  /** The paths that may answer an include, best first. */
  function Candidates(d: Disk, inc: string, dir: string): seq<string> {
    if IsRelative(inc) then [Join(dir, inc)] else Joined(d.dirs, inc) + [inc]
  }

  function Joined(dirs: seq<string>, inc: string): seq<string> {
    if dirs == [] then [] else [Join(dirs[0], inc)] + Joined(dirs[1..], inc)
  }

  function FirstPresent(d: Disk, cands: seq<string>): (r: Option<string>)
    ensures r.Some? ==> r.value in cands && r.value in d.present
    ensures r.None? ==> forall c :: c in cands ==> c !in d.present
  {
    if cands == [] then None
    else if cands[0] in d.present then Some(cands[0])
    else FirstPresent(d, cands[1..])
  }

  function Canonical(d: Disk, path: string): string {
    if path in d.canon then d.canon[path] else path
  }

  function Resolve(d: Disk, inc: string, dir: string): Option<string> {
    match FirstPresent(d, Candidates(d, inc, dir))
    case None => None
    case Some(p) => Some(Canonical(d, p))
  }

  /** resolve_include_path followed by realpath */
  method ResolveInclude(d: Disk, inc: string, dir: string) returns (r: Option<string>)
    ensures r == Resolve(d, inc, dir)
  {
    if IsRelative(inc) {
      var cand := Join(dir, inc);
      return if cand in d.present then Some(Canonical(d, cand)) else None;
    }
    for i := 0 to |d.dirs|
      invariant FirstPresent(d, Joined(d.dirs, inc) + [inc]) == FirstPresent(d, Joined(d.dirs[i..], inc) + [inc])
    {
      var cand := Join(d.dirs[i], inc);
      ghost var rest := Joined(d.dirs[i + 1..], inc);
      assert d.dirs[i..][1..] == d.dirs[i + 1..];
      assert (Joined(d.dirs[i..], inc) + [inc])[1..] == rest + [inc];
      if cand in d.present {
        return Some(Canonical(d, cand));
      }
    }
    r := if inc in d.present then Some(Canonical(d, inc)) else None;
  }

  lemma {:induction false} FirstOf(d: Disk, cands: seq<string>, i: nat)
    requires i < |cands| && cands[i] in d.present && forall j :: 0 <= j < i ==> cands[j] !in d.present
    ensures FirstPresent(d, cands) == Some(cands[i])
  {
    if i > 0 {
      FirstOf(d, cands[1..], i - 1);
    }
  }

  lemma {:induction false} JoinedAt(dirs: seq<string>, inc: string)
    ensures |Joined(dirs, inc)| == |dirs| && forall k :: 0 <= k < |dirs| ==> Joined(dirs, inc)[k] == Join(dirs[k], inc)
  {
    hide Join;
    if dirs != [] {
      JoinedAt(dirs[1..], inc);
    }
  }

  /** A relative include is looked for beside its own file only; another one in the include
      directories, the first that has it, and then as it is. */
  lemma {:induction false} SearchOrder(d: Disk, inc: string, dir: string, i: nat)
    ensures IsRelative(inc) ==>
              Resolve(d, inc, dir) ==
              if Join(dir, inc) in d.present then Some(Canonical(d, Join(dir, inc))) else None
    ensures !IsRelative(inc) && i < |d.dirs| && Join(d.dirs[i], inc) in d.present &&
            (forall j :: 0 <= j < i ==> Join(d.dirs[j], inc) !in d.present) ==>
              Resolve(d, inc, dir) == Some(Canonical(d, Join(d.dirs[i], inc)))
    ensures !IsRelative(inc) && (forall j :: 0 <= j < |d.dirs| ==> Join(d.dirs[j], inc) !in d.present) ==>
              Resolve(d, inc, dir) == if inc in d.present then Some(Canonical(d, inc)) else None
  {
    hide Join, IsRelative;
    if !IsRelative(inc) {
      var cands := Candidates(d, inc, dir);
      JoinedAt(d.dirs, inc);
      assert cands[|d.dirs|] == inc;
      if i < |d.dirs| && cands[i] in d.present && forall j :: 0 <= j < i ==> cands[j] !in d.present {
        FirstOf(d, cands, i);
      }
      if inc in d.present && forall j :: 0 <= j < |d.dirs| ==> cands[j] !in d.present {
        FirstOf(d, cands, |d.dirs|);
      }
    }
  }

  /** The directory of a path is what stands before its last slash. */
  lemma {:induction false} DirNameSplits(dir: string, slash: char, name: string)
    requires IsSlash(slash) && forall k :: 0 <= k < |name| ==> !IsSlash(name[k])
    ensures DirName(dir + [slash] + name) == dir && DirName(name) == "."
  {
    if name != "" {
      var init := name[..|name| - 1];
      DirNameSplits(dir, slash, init);
      var path := dir + [slash] + name;
      assert path[..|path| - 1] == dir + [slash] + init && path[|path| - 1] == name[|name| - 1];
    } else {
      var path := dir + [slash] + name;
      assert path[|path| - 1] == slash && path[..|path| - 1] == dir;
    }
  }

  function Load(d: Disk, path: string): Option<seq<Sexpr>> {
    if path !in d.files then None
    else match Parse(d.files[path])
         case None => None
         case Some(ns) => Some(Strip(ns))
  }

  // ---------- forms ----------

  /** The text of a form's head, if it is a list that starts with an atom. */
  function Head(f: Sexpr): Option<string> {
    if f.List? && f.items != [] && f.items[0].Atom? then Some(f.items[0].text) else None
  }

  function TextOf(f: Sexpr): string {
    if f.List? then "" else f.text
  }

  /** The path of an include that is still to be served.  An include without a path, or
      with an empty one, is never served. */
  function LivePath(f: Sexpr): (r: Option<string>)
    ensures r.Some? ==> f.List? && |f.items| > 1 && r.value != ""
  {
    if Head(f) == Some("include") && |f.items| > 1 && TextOf(f.items[1]) != "" then Some(TextOf(f.items[1])) else None
  }

  predicate IsScope(f: Sexpr) {
    Head(f) == Some("module") || Head(f) == Some("program")
  }

  /** `head->text = ""` */
  function Blank(f: Sexpr): (r: Sexpr)
    requires f.List? && f.items != []
    ensures LivePath(r) == None && !IsScope(r)
  {
    List([Atom("")] + f.items[1..])
  }

  /** No include is left to serve, at the top or inside modules and programs. */
  predicate Clean(forms: seq<Sexpr>) {
    forall k :: 0 <= k < |forms| ==> CleanForm(forms[k])
  }

  predicate CleanForm(f: Sexpr) {
    LivePath(f) == None && (IsScope(f) ==> Clean(f.items))
  }

  // ---------- the ideal merge ----------

  /** A form after merging, the forms merged on its behalf, and the files merged by then. */
  datatype Served = Served(form: Sexpr, chunk: seq<Sexpr>, included: seq<string>)

  /** The same for a list: its own forms and those merged behind them. */
  datatype Merged = Merged(own: seq<Sexpr>, added: seq<Sexpr>, included: seq<string>)

  function All(w: Merged): seq<Sexpr> {
    w.own + w.added
  }

  ghost function Unread(d: Disk, included: seq<string>): set<string> {
    d.files.Keys - set p | p in included
  }

  /** `later` extends `included` by files that exist. */
  ghost predicate Extends(d: Disk, included: seq<string>, later: seq<string>) {
    included <= later && (later == included || Unread(d, later) < Unread(d, included))
  }

  lemma {:induction false} ExtendsByFile(d: Disk, included: seq<string>, p: string)
    requires p !in included && p in d.files
    ensures Extends(d, included, included + [p]) && Unread(d, included + [p]) < Unread(d, included)
  {
    assert p in Unread(d, included) && p !in Unread(d, included + [p]);
  }

  lemma {:induction false} ExtendsTrans(d: Disk, a: seq<string>, b: seq<string>, c: seq<string>)
    requires Extends(d, a, b) && Extends(d, b, c)
    ensures Extends(d, a, c) && (Extends(d, a, b) && a != b ==> Unread(d, c) < Unread(d, a))
  {
  }

  function Push(s: Served, r: Option<Merged>): (p: Option<Merged>)
    ensures s.chunk == [] && r.Some? ==> p.Some? && p.value.added == r.value.added
  {
    match r
    case None => None
    case Some(w) =>
      assert s.chunk == [] ==> s.chunk + w.added == w.added;
      Some(Merged([s.form] + w.own, s.chunk + w.added, w.included))
  }

  /** Merging that visits every form once, in the directory of the file it came from:
      merged forms are complete when they arrive and are not walked again. */
  function Walk(d: Disk, forms: seq<Sexpr>, included: seq<string>, dir: string): (r: Option<Merged>)
    ensures r.Some? ==> Extends(d, included, r.value.included)
    decreases Unread(d, included), forms
  {
    if forms == [] then Some(Merged([], [], included))
    else
      match Serve(d, forms[0], included, dir)
      case None => None
      case Some(s) =>
        var r := Walk(d, forms[1..], s.included, dir);
        assert r.Some? ==> Extends(d, included, r.value.included) by {
          if r.Some? { ExtendsTrans(d, included, s.included, r.value.included); }
        }
        Push(s, r)
  }

  /** One form: an include names a file, which is merged at its first naming; a module or
      program is merged inside. */
  function Serve(d: Disk, f: Sexpr, included: seq<string>, dir: string): (r: Option<Served>)
    ensures r.Some? ==> Extends(d, included, r.value.included)
    decreases Unread(d, included), f
  {
    if LivePath(f).Some? then
      match Resolve(d, LivePath(f).value, dir)
      case None => None
      case Some(p) =>
        if p in included then Some(Served(Blank(f), [], included))
        else match Load(d, p)
             case None => None
             case Some(file) =>
               ExtendsByFile(d, included, p);
               match Walk(d, file, included + [p], DirName(p))
               case None => None
               case Some(w) =>
                 ExtendsTrans(d, included, included + [p], w.included);
                 Some(Served(Blank(f), All(w), w.included))
    else if IsScope(f) then
      match Walk(d, f.items, included, dir)
      case None => None
      case Some(w) => Some(Served(List(All(w)), [], w.included))
    else Some(Served(f, [], included))
  }

  // ---------- what merging achieves ----------

  lemma {:induction false} CleanAppend(a: seq<Sexpr>, b: seq<Sexpr>)
    ensures Clean(a + b) <==> Clean(a) && Clean(b)
  {
    assert forall k :: 0 <= k < |a| ==> a[k] == (a + b)[k];
    assert forall k :: 0 <= k < |b| ==> b[k] == (a + b)[|a| + k];
  }

  /** After merging, no include is left to serve. */
  lemma {:induction false} WalkIsClean(d: Disk, forms: seq<Sexpr>, included: seq<string>, dir: string)
    requires Walk(d, forms, included, dir).Some?
    ensures var w := Walk(d, forms, included, dir).value; Clean(w.own) && Clean(w.added)
    decreases Unread(d, included), forms
  {
    hide Unread, Clean, Serve;
    if forms == [] {
      EmptyIsClean();
    } else {
      var s := Serve(d, forms[0], included, dir).value;
      ServeIsClean(d, forms[0], included, dir);
      WalkIsClean(d, forms[1..], s.included, dir);
      var r := Walk(d, forms[1..], s.included, dir).value;
      CleanAppend([s.form], r.own);
      CleanAppend(s.chunk, r.added);
    }
  }

  lemma {:induction false} EmptyIsClean()
    ensures Clean([])
  {
  }

  lemma {:induction false} ServeIsClean(d: Disk, f: Sexpr, included: seq<string>, dir: string)
    requires Serve(d, f, included, dir).Some?
    ensures var s := Serve(d, f, included, dir).value; Clean([s.form]) && Clean(s.chunk)
    decreases Unread(d, included), f
  {
    hide Unread, Walk;
    if LivePath(f).Some? {
      var p := Resolve(d, LivePath(f).value, dir).value;
      if p !in included {
        ExtendsByFile(d, included, p);
        WalkIsClean(d, Load(d, p).value, included + [p], DirName(p));
        var w := Walk(d, Load(d, p).value, included + [p], DirName(p)).value;
        CleanAppend(w.own, w.added);
      }
    } else if IsScope(f) {
      WalkIsClean(d, f.items, included, dir);
      var w := Walk(d, f.items, included, dir).value;
      CleanAppend(w.own, w.added);
      StillScope(d, f, included, dir);
    }
  }

  /** The head of a merged list is its old head: merging leaves a leading atom alone. */
  lemma {:induction false} StillScope(d: Disk, f: Sexpr, included: seq<string>, dir: string)
    requires IsScope(f) && Walk(d, f.items, included, dir).Some?
    ensures var w := Walk(d, f.items, included, dir).value; Head(List(All(w))) == Head(f)
  {
    assert Serve(d, f.items[0], included, dir) == Some(Served(f.items[0], [], included));
    var w := Walk(d, f.items, included, dir).value;
    assert w.own[0] == f.items[0] && All(w)[0] == w.own[0];
  }

  /** Walking clean forms again changes nothing, in whatever directory: so an include is
      only ever resolved against the directory of its own file. */
  lemma {:induction false} CleanStays(d: Disk, forms: seq<Sexpr>, included: seq<string>, dir: string)
    requires Clean(forms)
    ensures Walk(d, forms, included, dir) == Some(Merged(forms, [], included))
    decreases forms
  {
    hide Unread, Serve;
    if forms != [] {
      CleanFormStays(d, forms[0], included, dir);
      CleanStays(d, forms[1..], included, dir);
      assert [forms[0]] + forms[1..] == forms;
    }
  }

  lemma {:induction false} CleanFormStays(d: Disk, f: Sexpr, included: seq<string>, dir: string)
    requires CleanForm(f)
    ensures Serve(d, f, included, dir) == Some(Served(f, [], included))
    decreases f
  {
    hide Unread, Walk;
    if IsScope(f) {
      CleanStays(d, f.items, included, dir);
      assert All(Merged(f.items, [], included)) == f.items;
    }
  }

  /** Clean forms behind a list come through its merge untouched. */
  lemma {:induction false} WalkBeforeClean(d: Disk, a: seq<Sexpr>, b: seq<Sexpr>, included: seq<string>, dir: string)
    requires Clean(b)
    ensures Walk(d, a + b, included, dir) ==
            match Walk(d, a, included, dir)
            case None => None
            case Some(w) => Some(Merged(w.own + b, w.added, w.included))
    decreases |a|
  {
    hide Unread, Clean, Serve;
    if a == [] {
      assert a + b == b;
      CleanStays(d, b, included, dir);
    } else {
      assert (a + b)[1..] == a[1..] + b;
      var s := Serve(d, a[0], included, dir);
      if s.Some? {
        WalkBeforeClean(d, a[1..], b, s.value.included, dir);
        var r := Walk(d, a[1..], s.value.included, dir);
        if r.Some? {
          assert [s.value.form] + (r.value.own + b) == [s.value.form] + r.value.own + b;
        }
      }
    }
  }

  // ---------- which files are merged ----------

  /** Some include of these forms, in modules and programs too, names the file `p`. */
  predicate Names(d: Disk, forms: seq<Sexpr>, dir: string, p: string) {
    forms != [] && (FormNames(d, forms[0], dir, p) || Names(d, forms[1..], dir, p))
  }

  predicate FormNames(d: Disk, f: Sexpr, dir: string, p: string) {
    if LivePath(f).Some? then Resolve(d, LivePath(f).value, dir) == Some(p)
    else IsScope(f) && Names(d, f.items, dir, p)
  }

  /** Every include of these forms is found, among `included`. */
  predicate AllFound(d: Disk, forms: seq<Sexpr>, dir: string, included: seq<string>) {
    forms == [] || (FormFound(d, forms[0], dir, included) && AllFound(d, forms[1..], dir, included))
  }

  predicate FormFound(d: Disk, f: Sexpr, dir: string, included: seq<string>) {
    if LivePath(f).Some? then
      Resolve(d, LivePath(f).value, dir).Some? && Resolve(d, LivePath(f).value, dir).value in included
    else IsScope(f) ==> AllFound(d, f.items, dir, included)
  }

  predicate FileNames(d: Disk, q: string, p: string) {
    Load(d, q).Some? && Names(d, Load(d, q).value, DirName(q), p)
  }

  /** The file at `k` is named by the given forms or by a file merged before it. */
  ghost predicate HasReason(d: Disk, forms: seq<Sexpr>, dir: string, from: nat, k: nat, included: seq<string>)
    requires k < |included|
  {
    Names(d, forms, dir, included[k]) || exists j :: from <= j < k && FileNames(d, included[j], included[k])
  }

  /** Files are merged for a reason, and never twice: the new entries of the list are
      distinct from the old ones and from each other, and each is named by the forms at hand
      or by a file merged earlier.  So only files that can be reached by includes are
      merged. */
  ghost predicate MergedOnce(d: Disk, forms: seq<Sexpr>, dir: string, included: seq<string>, later: seq<string>) {
    included <= later &&
    forall k :: |included| <= k < |later| ==>
      later[k] !in later[..k] && HasReason(d, forms, dir, |included|, k, later)
  }

  lemma {:induction false} WalkMergesOnce(d: Disk, forms: seq<Sexpr>, included: seq<string>, dir: string)
    requires Walk(d, forms, included, dir).Some?
    ensures MergedOnce(d, forms, dir, included, Walk(d, forms, included, dir).value.included)
    decreases Unread(d, included), forms
  {
    hide Unread, Serve, Names, MergedOnce;
    if forms == [] {
      NoneMerged(d, forms, dir, included);
    } else {
      var s := Serve(d, forms[0], included, dir).value;
      ServeMergesOnce(d, forms[0], included, dir);
      WalkMergesOnce(d, forms[1..], s.included, dir);
      MergedJoin(d, forms, dir, included, s.included, Walk(d, forms[1..], s.included, dir).value.included);
    }
  }

  lemma {:induction false} NamesOne(d: Disk, f: Sexpr, dir: string, p: string)
    ensures Names(d, [f], dir, p) == FormNames(d, f, dir, p)
  {
    assert [f][1..] == [];
  }

  lemma {:induction false} NoneMerged(d: Disk, forms: seq<Sexpr>, dir: string, included: seq<string>)
    ensures MergedOnce(d, forms, dir, included, included)
  {
  }

  /** What the first form and then the others merge is merged by the list. */
  lemma {:induction false} MergedJoin(d: Disk, forms: seq<Sexpr>, dir: string, a: seq<string>, b: seq<string>,
          c: seq<string>)
    requires forms != [] && MergedOnce(d, [forms[0]], dir, a, b) && MergedOnce(d, forms[1..], dir, b, c)
    ensures MergedOnce(d, forms, dir, a, c)
  {
    hide FileNames;
    forall k | |a| <= k < |c| ensures c[k] !in c[..k] && HasReason(d, forms, dir, |a|, k, c) {
      if k < |b| {
        assert c[..k] == b[..k] && c[k] == b[k];
        NamesOne(d, forms[0], dir, c[k]);
        assert HasReason(d, [forms[0]], dir, |a|, k, b);
      } else {
        assert HasReason(d, forms[1..], dir, |b|, k, c);
      }
    }
  }

  /** What a file merges is merged by the include that first names the file. */
  lemma {:induction false} MergedByFile(d: Disk, forms: seq<Sexpr>, dir: string, p: string, included: seq<string>,
          later: seq<string>)
    requires Names(d, forms, dir, p) && p !in included && Load(d, p).Some?
    requires MergedOnce(d, Load(d, p).value, DirName(p), included + [p], later)
    ensures MergedOnce(d, forms, dir, included, later)
  {
    hide Names, Load;
    var file := Load(d, p).value;
    assert later[|included|] == p && later[..|included|] == included;
    forall k | |included| <= k < |later| ensures later[k] !in later[..k] && HasReason(d, forms, dir, |included|, k,
      later) {
      if k > |included| {
        assert HasReason(d, file, DirName(p), |included| + 1, k, later);
        assert Names(d, file, DirName(p), later[k]) ==> FileNames(d, later[|included|], later[k]);
      }
    }
  }

  lemma {:induction false} ServeMergesOnce(d: Disk, f: Sexpr, included: seq<string>, dir: string)
    requires Serve(d, f, included, dir).Some?
    ensures MergedOnce(d, [f], dir, included, Serve(d, f, included, dir).value.included)
    decreases Unread(d, included), f
  {
    hide Unread, Walk, MergedOnce, Load;
    NoneMerged(d, [f], dir, included);
    if LivePath(f).Some? {
      var p := Resolve(d, LivePath(f).value, dir).value;
      if p !in included {
        LoadExists(d, p);
        ExtendsByFile(d, included, p);
        WalkMergesOnce(d, Load(d, p).value, included + [p], DirName(p));
        MergedByFile(d, [f], dir, p, included, Serve(d, f, included, dir).value.included);
      }
    } else if IsScope(f) {
      WalkMergesOnce(d, f.items, included, dir);
      MergedByScope(d, f, dir, included, Walk(d, f.items, included, dir).value.included);
    }
  }

  lemma {:induction false} MergedByScope(d: Disk, f: Sexpr, dir: string, a: seq<string>, b: seq<string>)
    requires LivePath(f).None? && IsScope(f) && MergedOnce(d, f.items, dir, a, b)
    ensures MergedOnce(d, [f], dir, a, b)
  {
    hide FileNames;
    forall k | |a| <= k < |b| ensures b[k] !in b[..k] && HasReason(d, [f], dir, |a|, k, b) {
      NamesOne(d, f, dir, b[k]);
      assert HasReason(d, f.items, dir, |a|, k, b);
    }
  }

  /** Nothing is left out: after the merge every include of the forms, and of every file
      merged on their behalf, names a file that has been merged. */
  lemma {:induction false} WalkFindsAll(d: Disk, forms: seq<Sexpr>, included: seq<string>, dir: string)
    requires Walk(d, forms, included, dir).Some?
    ensures var later := Walk(d, forms, included, dir).value.included;
            AllFound(d, forms, dir, later) && FilesFound(d, |included|, later, later)
    decreases Unread(d, included), forms
  {
    hide Unread, Serve, Load;
    if forms != [] {
      var s := Serve(d, forms[0], included, dir).value;
      ServeFindsAll(d, forms[0], included, dir);
      WalkFindsAll(d, forms[1..], s.included, dir);
      var later := Walk(d, forms, included, dir).value.included;
      FormFoundLater(d, forms[0], dir, s.included, later);
      forall k | |included| <= k < |s.included| ensures FileFound(d, later[k], later) {
        assert later[k] == s.included[k];
        FileFoundLater(d, later[k], s.included, later);
      }
    }
  }

  /** The includes of the files from position `from` on are found among `later`. */
  ghost predicate FilesFound(d: Disk, from: nat, files: seq<string>, later: seq<string>) {
    forall k :: from <= k < |files| ==> FileFound(d, files[k], later)
  }

  predicate FileFound(d: Disk, p: string, later: seq<string>) {
    Load(d, p).Some? && AllFound(d, Load(d, p).value, DirName(p), later)
  }

  lemma {:induction false} ServeFindsAll(d: Disk, f: Sexpr, included: seq<string>, dir: string)
    requires Serve(d, f, included, dir).Some?
    ensures var later := Serve(d, f, included, dir).value.included;
            FormFound(d, f, dir, later) && FilesFound(d, |included|, later, later)
    decreases Unread(d, included), f
  {
    hide Unread, Walk, Load, AllFound;
    if LivePath(f).Some? {
      var p := Resolve(d, LivePath(f).value, dir).value;
      if p !in included {
        LoadExists(d, p);
        ExtendsByFile(d, included, p);
        WalkFindsAll(d, Load(d, p).value, included + [p], DirName(p));
        var later := Serve(d, f, included, dir).value.included;
        assert later[|included|] == p;
      }
    } else if IsScope(f) {
      WalkFindsAll(d, f.items, included, dir);
    }
  }

  lemma {:induction false} LoadExists(d: Disk, p: string)
    ensures Load(d, p).Some? ==> p in d.files
  {
  }

  lemma {:induction false} AllFoundLater(d: Disk, forms: seq<Sexpr>, dir: string, included: seq<string>,
          later: seq<string>)
    requires AllFound(d, forms, dir, included) && included <= later
    ensures AllFound(d, forms, dir, later)
    decreases forms
  {
    if forms != [] {
      FormFoundLater(d, forms[0], dir, included, later);
      AllFoundLater(d, forms[1..], dir, included, later);
    }
  }

  lemma {:induction false} FormFoundLater(d: Disk, f: Sexpr, dir: string, included: seq<string>, later: seq<string>)
    requires FormFound(d, f, dir, included) && included <= later
    ensures FormFound(d, f, dir, later)
    decreases f
  {
    if LivePath(f).None? && IsScope(f) {
      AllFoundLater(d, f.items, dir, included, later);
    }
  }

  lemma {:induction false} FileFoundLater(d: Disk, p: string, included: seq<string>, later: seq<string>)
    requires FileFound(d, p, included) && included <= later
    ensures FileFound(d, p, later)
  {
    AllFoundLater(d, Load(d, p).value, DirName(p), included, later);
  }

  // ---------- each merged file contributes its forms exactly once ----------

  /** A form that merging neither serves, enters nor makes. */
  predicate IsPlain(x: Sexpr) {
    LivePath(x) == None && !IsScope(x) && Head(x) != Some("")
  }

  /** How often a form occurs at the top or inside modules and programs. */
  function Occ(x: Sexpr, forms: seq<Sexpr>): nat {
    if forms == [] then 0 else OccIn(x, forms[0]) + Occ(x, forms[1..])
  }

  function OccIn(x: Sexpr, f: Sexpr): nat {
    if f == x then 1 else if IsScope(f) then Occ(x, f.items) else 0
  }

  function OccInFiles(d: Disk, x: Sexpr, ps: seq<string>): nat {
    if ps == [] then 0
    else OccInFiles(d, x, ps[..|ps| - 1]) +
         match Load(d, ps[|ps| - 1]) case None => 0 case Some(file) => Occ(x, file)
  }

  lemma {:induction false} OccAppend(x: Sexpr, a: seq<Sexpr>, b: seq<Sexpr>)
    ensures Occ(x, a + b) == Occ(x, a) + Occ(x, b)
  {
    if a == [] {
      assert a + b == b;
    } else {
      assert (a + b)[1..] == a[1..] + b;
      OccAppend(x, a[1..], b);
    }
  }

  /** Every plain form of the list and of each newly merged file is in the result, as often
      as it was there, and no other is. */
  lemma {:induction false} WalkConserves(d: Disk, forms: seq<Sexpr>, included: seq<string>, dir: string, x: Sexpr)
    requires IsPlain(x) && Walk(d, forms, included, dir).Some?
    ensures var w := Walk(d, forms, included, dir).value;
            Occ(x, All(w)) + OccInFiles(d, x, included) == Occ(x, forms) + OccInFiles(d, x, w.included)
    decreases Unread(d, included), forms
  {
    hide Unread, Serve, Load, OccInFiles, IsPlain, OccIn;
    if forms != [] {
      var s := Serve(d, forms[0], included, dir).value;
      ServeConserves(d, forms[0], included, dir, x);
      WalkConserves(d, forms[1..], s.included, dir, x);
      var r := Walk(d, forms[1..], s.included, dir).value;
      OccAppend(x, [s.form] + r.own, s.chunk + r.added);
      OccAppend(x, s.chunk, r.added);
      OccAppend(x, r.own, r.added);
      assert ([s.form] + r.own)[1..] == r.own;
    }
  }

  lemma {:induction false} ServeConserves(d: Disk, f: Sexpr, included: seq<string>, dir: string, x: Sexpr)
    requires IsPlain(x) && Serve(d, f, included, dir).Some?
    ensures var s := Serve(d, f, included, dir).value;
            OccIn(x, s.form) + Occ(x, s.chunk) + OccInFiles(d, x, included) == OccIn(x, f) + OccInFiles(d, x,
              s.included)
    decreases Unread(d, included), f
  {
    hide Unread, Walk, Load;
    if LivePath(f).Some? {
      var p := Resolve(d, LivePath(f).value, dir).value;
      if p !in included {
        LoadExists(d, p);
        ExtendsByFile(d, included, p);
        WalkConserves(d, Load(d, p).value, included + [p], DirName(p), x);
        assert (included + [p])[..|included|] == included;
      }
    } else if IsScope(f) {
      WalkConserves(d, f.items, included, dir, x);
      StillScope(d, f, included, dir);
    }
  }

  // ---------- the merge of the source ----------

  datatype Outcome = Outcome(forms: seq<Sexpr>, included: seq<string>)

  /** The final list and files when `done` is walked and `w` comes of the rest. */
  function Total(done: seq<Sexpr>, w: Option<Merged>): (r: Option<Outcome>)
    ensures done == [] && w.Some? ==> r.Some? && r.value.forms == All(w.value)
  {
    match w
    case None => None
    case Some(m) =>
      assert done == [] ==> done + All(m) == All(m);
      Some(Outcome(done + All(m), m.included))
  }

  lemma {:induction false} Regroup(a: seq<Sexpr>, f: seq<Sexpr>, own: seq<Sexpr>, chunk: seq<Sexpr>, added: seq<Sexpr>)
    ensures a + ((f + own) + (chunk + added)) == (a + f) + ((own + chunk) + added)
  {
  }

  lemma {:induction false} UpdateAndGrow(items: seq<Sexpr>, i: nat, f: Sexpr, chunk: seq<Sexpr>)
    requires i < |items|
    ensures var next := items[i := f] + chunk;
            next[..i + 1] == items[..i] + [f] && next[i + 1..] == items[i + 1..] + chunk
  {
  }

  /** Serving form `i` and appending its chunk to the list leads to the same outcome as the
      ideal merge, because the chunk is clean. */
  lemma {:induction false} ServedInPlace(d: Disk, items: seq<Sexpr>, i: nat, included: seq<string>, dir: string)
    requires i < |items|
    ensures match Serve(d, items[i], included, dir)
            case None => Walk(d, items[i..], included, dir) == None
            case Some(s) =>
              var next := items[i := s.form] + s.chunk;
              Total(items[..i], Walk(d, items[i..], included, dir)) ==
              Total(next[..i + 1], Walk(d, next[i + 1..], s.included, dir))
  {
    hide Serve, Clean, Unread;
    var s := Serve(d, items[i], included, dir);
    assert items[i..][1..] == items[i + 1..];
    if s.Some? {
      var s := s.value;
      UpdateAndGrow(items, i, s.form, s.chunk);
      ServeIsClean(d, items[i], included, dir);
      WalkBeforeClean(d, items[i + 1..], s.chunk, s.included, dir);
      var r := Walk(d, items[i + 1..], s.included, dir);
      if r.Some? {
        Regroup(items[..i], [s.form], r.value.own, s.chunk, r.value.added);
      }
    }
  }

  /** Only a file that had not been merged puts anything behind the list. */
  lemma {:induction false} ServeWithoutFiles(d: Disk, f: Sexpr, included: seq<string>, dir: string)
    ensures var s := Serve(d, f, included, dir);
            s.Some? && s.value.included == included ==> s.value.chunk == []
  {
    hide Unread, Walk;
  }

  lemma {:induction false} NothingToWalk(d: Disk, items: seq<Sexpr>, included: seq<string>, dir: string)
    ensures Total(items[..|items|], Walk(d, items[|items|..], included, dir)) == Some(Outcome(items, included))
  {
    assert items[..|items|] + All(Merged([], [], included)) == items;
  }

  /** The list of files merged so far, and the walks that extend it. */
  class Merger {
    const disk: Disk
    var included: seq<string>

    constructor (d: Disk)
      ensures disk == d && included == []
    {
      disk, included := d, [];
    }

    /** merge_includes_in_list: the list grows while it is walked, and merged forms are
        walked again with this list's directory; still the outcome is the ideal merge. */
    method MergeList(list: seq<Sexpr>, dir: string) returns (r: Option<seq<Sexpr>>)
      modifies this
      ensures match Total([], Walk(disk, list, old(included), dir))
              case None => r == None
              case Some(o) => r == Some(o.forms) && included == o.included
      decreases Unread(disk, included), list, 1
    {
      hide Unread, Walk, Serve;
      var items := list;
      var i := 0;
      assert items[..0] == [] && items[0..] == list;
      while i < |items|
        invariant 0 <= i <= |items| && Extends(disk, old(included), included)
        invariant included == old(included) ==> |items| == |list| && items[i..] == list[i..]
        invariant Total([], Walk(disk, list, old(included), dir)) ==
                  Total(items[..i], Walk(disk, items[i..], included, dir))
        decreases Unread(disk, included), |items| - i
      {
        ServedInPlace(disk, items, i, included, dir);
        ServeWithoutFiles(disk, items[i], included, dir);
        if included == old(included) {
          assert items[i] == items[i..][0] == list[i];
        }
        ghost var before := included;
        var form, chunk := ServeForm(items[i], dir);
        if form.None? {
          return None;
        }
        ExtendsTrans(disk, old(included), before, included);
        items := items[i := form.value] + chunk;
        i := i + 1;
      }
      NothingToWalk(disk, items, included, dir);
      r := Some(items);
    }

    /** The loop body of merge_includes_in_list: the form after its visit, and what
        merge_file_into pushes behind the list. */
    method ServeForm(f: Sexpr, dir: string) returns (form: Option<Sexpr>, chunk: seq<Sexpr>)
      modifies this
      ensures match Serve(disk, f, old(included), dir)
              case None => form == None
              case Some(s) => form == Some(s.form) && chunk == s.chunk && included == s.included
      decreases Unread(disk, included), f, 0
    {
      form, chunk := Some(f), [];
      var live := LivePath(f);
      if live.Some? {
        var p := ResolveInclude(disk, live.value, dir);
        if p.None? {
          return None, [];
        }
        if p.value !in included {
          if p.value !in disk.files {
            return None, [];
          }
          ExtendsByFile(disk, included, p.value);
          var merged := MergeFile(p.value);
          if merged.None? {
            return None, [];
          }
          chunk := merged.value;
        }
        form := Some(Blank(f));
      } else if IsScope(f) {
        var items := MergeList(f.items, dir);
        form := if items.None? then None else Some(List(items.value));
      }
    }

    /** sl_push and merge_file_into */
    method MergeFile(p: string) returns (r: Option<seq<Sexpr>>)
      requires p in disk.files
      modifies this
      ensures match Load(disk, p)
              case None => r == None
              case Some(file) =>
                match Total([], Walk(disk, file, old(included) + [p], DirName(p)))
                case None => r == None
                case Some(o) => r == Some(o.forms) && included == o.included
      decreases Unread(disk, included + [p])
    {
      included := included + [p];
      var nodes := ParseTop(disk.files[p]);
      if nodes.None? {
        return None;
      }
      r := MergeList(Strip(nodes.value), DirName(p));
    }
  }
}
