/** Where merged forms stand: told by the forms of the files alone. */
module MergeOrder {
  import opened Wrappers
  import opened Includes
  import opened Sexprs

  // ---------- every form stays in its place ----------

  /** What merging makes of a form: a served include is blanked, modules and programs keep
      their own forms in front. */
  predicate Grown(f: Sexpr, g: Sexpr)
    decreases f
  {
    if LivePath(f).Some? then g == Blank(f)
    else if IsScope(f) then g.List? && AllGrown(f.items, g.items)
    else g == f
  }

  predicate AllGrown(a: seq<Sexpr>, b: seq<Sexpr>)
    decreases a
  {
    |a| <= |b| && forall k :: 0 <= k < |a| ==> Grown(a[k], b[k])
  }

  /** The forms of a list stay in front, each in its place. */
  lemma {:induction false} FormsStay(d: Disk, forms: seq<Sexpr>, included: seq<string>, dir: string)
    requires Walk(d, forms, included, dir).Some?
    ensures var w := Walk(d, forms, included, dir).value;
            |w.own| == |forms| && AllGrown(forms, w.own) && AllGrown(forms, All(w))
    decreases Unread(d, included), forms
  {
    hide Unread, Serve, Grown;
    if forms != [] {
      var s := Serve(d, forms[0], included, dir).value;
      FormStays(d, forms[0], included, dir);
      FormsStay(d, forms[1..], s.included, dir);
      var own := Walk(d, forms, included, dir).value.own;
      forall k | 0 <= k < |forms| ensures Grown(forms[k], own[k]) {
        if k > 0 {
          assert forms[k] == forms[1..][k - 1] && own[k] == own[1..][k - 1];
        }
      }
    }
  }

  lemma {:induction false} FormStays(d: Disk, f: Sexpr, included: seq<string>, dir: string)
    requires Serve(d, f, included, dir).Some?
    ensures Grown(f, Serve(d, f, included, dir).value.form)
    decreases Unread(d, included), f
  {
    hide Unread, Walk, Load;
    if LivePath(f).None? && IsScope(f) {
      FormsStay(d, f.items, included, dir);
    }
  }

  // ---------- merged files follow in the order of their merging ----------

  /** The forms with their live includes blanked. */
  function Blanked(forms: seq<Sexpr>): (r: seq<Sexpr>)
    ensures |r| == |forms|
    ensures forall k :: 0 <= k < |r| ==> r[k] == if LivePath(forms[k]).Some? then Blank(forms[k]) else forms[k]
  {
    if forms == [] then []
    else [if LivePath(forms[0]).Some? then Blank(forms[0]) else forms[0]] + Blanked(forms[1..])
  }

  /** No include to serve stands inside a module or program. */
  predicate Flat(forms: seq<Sexpr>) {
    forall k :: 0 <= k < |forms| && LivePath(forms[k]).None? ==> CleanForm(forms[k])
  }

  /** The forms of the given files, one file after another, each in file order. */
  function Contents(d: Disk, files: seq<string>): seq<Sexpr> {
    if files == [] then [] else ContentOf(d, files[0]) + Contents(d, files[1..])
  }

  function ContentOf(d: Disk, file: string): seq<Sexpr> {
    match Load(d, file)
    case None => []
    case Some(forms) => Blanked(forms)
  }

  predicate FilesFlat(d: Disk, files: seq<string>) {
    forall k :: 0 <= k < |files| && Load(d, files[k]).Some? ==> Flat(Load(d, files[k]).value)
  }

  lemma {:induction false} ContentsAppend(d: Disk, a: seq<string>, b: seq<string>)
    ensures Contents(d, a + b) == Contents(d, a) + Contents(d, b)
  {
    hide ContentOf;
    if a == [] {
      assert a + b == b;
    } else {
      assert (a + b)[1..] == a[1..] + b && (a + b)[0] == a[0];
      ContentsAppend(d, a[1..], b);
      CatForms(ContentOf(d, a[0]), Contents(d, a[1..]), Contents(d, b));
    }
  }

  lemma {:induction false} CatForms(a: seq<Sexpr>, b: seq<Sexpr>, c: seq<Sexpr>)
    ensures (a + b) + c == a + (b + c)
  {
  }

  lemma {:induction false} FlatRest(forms: seq<Sexpr>)
    requires forms != [] && Flat(forms)
    ensures Flat(forms[1..]) && (LivePath(forms[0]).None? ==> CleanForm(forms[0]))
  {
    hide CleanForm;
  }

  lemma {:induction false} FilesFlatPart(d: Disk, files: seq<string>, i: nat, j: nat)
    requires FilesFlat(d, files) && i <= j <= |files|
    ensures FilesFlat(d, files[i..j])
  {
  }

  /** New files, in two parts. */
  lemma {:induction false} NewFiles(a: seq<string>, b: seq<string>, c: seq<string>)
    requires a <= b <= c
    ensures c[|a|..] == b[|a|..] + c[|b|..]
    ensures c[|a|..][..|b| - |a|] == b[|a|..] && c[|a|..][|b| - |a|..] == c[|b|..]
  {
    assert c[..|b|] == b;
  }

  lemma {:induction false} NewFlat(d: Disk, a: seq<string>, b: seq<string>, c: seq<string>)
    requires a <= b <= c && FilesFlat(d, c[|a|..])
    ensures FilesFlat(d, b[|a|..]) && FilesFlat(d, c[|b|..])
  {
    hide FilesFlat;
    NewFiles(a, b, c);
    var files := c[|a|..];
    FilesFlatPart(d, files, 0, |b| - |a|);
    FilesFlatPart(d, files, |b| - |a|, |files|);
    assert files[0..|b| - |a|] == b[|a|..] && files[|b| - |a|..|files|] == c[|b|..];
  }

  /** The first form, and then the others. */
  lemma {:induction false} WalkStep(d: Disk, forms: seq<Sexpr>, included: seq<string>, dir: string)
    requires forms != [] && Walk(d, forms, included, dir).Some?
    ensures Serve(d, forms[0], included, dir).Some?
    ensures var s := Serve(d, forms[0], included, dir).value;
            var r := Walk(d, forms[1..], s.included, dir);
            r.Some? && included <= s.included <= r.value.included &&
            Walk(d, forms, included, dir).value ==
            Merged([s.form] + r.value.own, s.chunk + r.value.added, r.value.included)
  {
    hide Serve, Unread;
  }

  /** If no include stands inside a module or program, the merged list is the list itself with
      its includes blanked, followed by the forms of each newly merged file, in the order in
      which the files were merged and within a file in file order. */
  lemma {:induction false} FilesFollow(d: Disk, forms: seq<Sexpr>, included: seq<string>, dir: string)
    requires Walk(d, forms, included, dir).Some? && Flat(forms)
    requires FilesFlat(d, Walk(d, forms, included, dir).value.included[|included|..])
    ensures var w := Walk(d, forms, included, dir).value;
            w.own == Blanked(forms) && w.added == Contents(d, w.included[|included|..]) &&
            All(w) == Blanked(forms) + Contents(d, w.included[|included|..])
    decreases Unread(d, included), forms
  {
    hide Unread, Serve, Flat, FilesFlat, LivePath, Blank, Contents;
    if forms == [] {
      NoContents(d);
      assert included[|included|..] == [];
    } else {
      WalkStep(d, forms, included, dir);
      var s := Serve(d, forms[0], included, dir).value;
      var w := Walk(d, forms, included, dir).value;
      NewFiles(included, s.included, w.included);
      NewFlat(d, included, s.included, w.included);
      FlatRest(forms);
      FileFollows(d, forms[0], included, dir);
      FilesFollow(d, forms[1..], s.included, dir);
      ContentsAppend(d, s.included[|included|..], w.included[|s.included|..]);
      BlankedCons(forms);
    }
  }

  lemma {:induction false} NoContents(d: Disk)
    ensures Contents(d, []) == [] && Blanked([]) == []
  {
  }

  lemma {:induction false} BlankedCons(forms: seq<Sexpr>)
    requires forms != []
    ensures Blanked(forms) == Blanked([forms[0]]) + Blanked(forms[1..])
  {
  }

  lemma {:induction false} FileFollows(d: Disk, f: Sexpr, included: seq<string>, dir: string)
    requires Serve(d, f, included, dir).Some? && (LivePath(f).None? ==> CleanForm(f))
    requires FilesFlat(d, Serve(d, f, included, dir).value.included[|included|..])
    ensures var s := Serve(d, f, included, dir).value;
            [s.form] == Blanked([f]) && s.chunk == Contents(d, s.included[|included|..])
    decreases Unread(d, included), f
  {
    hide Unread, Walk, Load, Flat, FilesFlat, Contents, Clean, CleanForm;
    var s := Serve(d, f, included, dir).value;
    NoContents(d);
    assert included[|included|..] == [];
    if LivePath(f).Some? {
      var p := Resolve(d, LivePath(f).value, dir).value;
      if p !in included {
        LoadExists(d, p);
        ExtendsByFile(d, included, p);
        var rest := s.included[|included| + 1..];
        NewFiles(included, included + [p], s.included);
        assert s.included[|included|..] == [p] + rest;
        FirstFlat(d, p, rest);
        FilesFollow(d, Load(d, p).value, included + [p], DirName(p));
        ContentsCons(d, p, rest);
      }
    } else {
      CleanFormStays(d, f, included, dir);
    }
  }

  lemma {:induction false} FirstFlat(d: Disk, p: string, rest: seq<string>)
    requires FilesFlat(d, [p] + rest)
    ensures FilesFlat(d, rest) && (Load(d, p).Some? ==> Flat(Load(d, p).value))
  {
    hide Flat, Load;
    assert ([p] + rest)[0] == p && ([p] + rest)[1..] == rest;
    forall k | 0 <= k < |rest| && Load(d, rest[k]).Some? ensures Flat(Load(d, rest[k]).value) {
      assert ([p] + rest)[k + 1] == rest[k];
    }
  }

  lemma {:induction false} ContentsCons(d: Disk, p: string, rest: seq<string>)
    requires Load(d, p).Some?
    ensures Contents(d, [p] + rest) == Blanked(Load(d, p).value) + Contents(d, rest)
  {
    assert ([p] + rest)[1..] == rest;
  }

  // ---------- the same inside modules and programs ----------

  function Joined(parts: seq<seq<string>>): seq<string> {
    if parts == [] then [] else parts[0] + Joined(parts[1..])
  }

  /** What a form becomes with these files: they follow inside a module or program. */
  function Placed(d: Disk, f: Sexpr, files: seq<string>): Sexpr {
    if LivePath(f).Some? then Blank(f)
    else if IsScope(f) then List(Blanked(f.items) + Contents(d, files))
    else f
  }

  /** What follows the list because of a form: the files of an include. */
  function Behind(d: Disk, f: Sexpr, files: seq<string>): seq<Sexpr> {
    if LivePath(f).Some? then Contents(d, files) else []
  }

  function AllBehind(d: Disk, forms: seq<Sexpr>, parts: seq<seq<string>>): seq<Sexpr>
    requires |parts| == |forms|
  {
    if forms == [] then [] else Behind(d, forms[0], parts[0]) + AllBehind(d, forms[1..], parts[1..])
  }

  function AllPlaced(d: Disk, forms: seq<Sexpr>, parts: seq<seq<string>>): (r: seq<Sexpr>)
    requires |parts| == |forms|
    ensures |r| == |forms| && forall k :: 0 <= k < |r| ==> r[k] == Placed(d, forms[k], parts[k])
  {
    if forms == [] then [] else [Placed(d, forms[0], parts[0])] + AllPlaced(d, forms[1..], parts[1..])
  }

  /** Modules and programs of the list may hold includes, and nothing else may. */
  predicate FlatInside(forms: seq<Sexpr>) {
    forall k :: 0 <= k < |forms| && LivePath(forms[k]).None? && IsScope(forms[k]) ==> Flat(forms[k].items)
  }

  /** All newly merged files, in order, are those merged for the first form, for the second, and
      so on.  The files of an include follow the list; those of the includes of a module or
      program follow inside it. */
  lemma {:induction false} FilesFollowInside(d: Disk, forms: seq<Sexpr>, included: seq<string>, dir: string)
    returns (parts: seq<seq<string>>)
    requires Walk(d, forms, included, dir).Some? && FlatInside(forms)
    requires FilesFlat(d, Walk(d, forms, included, dir).value.included[|included|..])
    ensures var w := Walk(d, forms, included, dir).value;
            |parts| == |forms| && Joined(parts) == w.included[|included|..] &&
            w.own == AllPlaced(d, forms, parts) && w.added == AllBehind(d, forms, parts)
    decreases |forms|
  {
    hide Unread, Serve, Walk, Flat, FilesFlat, FlatInside, LivePath, Blank, Contents, Placed, Behind, IsScope;
    if forms == [] {
      parts := [];
      NothingWalked(d, included, dir);
      assert included[|included|..] == [];
    } else {
      WalkStep(d, forms, included, dir);
      var s := Serve(d, forms[0], included, dir).value;
      var w := Walk(d, forms, included, dir).value;
      NewFiles(included, s.included, w.included);
      NewFlat(d, included, s.included, w.included);
      InsideRest(forms);
      FormPlaced(d, forms[0], included, dir);
      var rest := FilesFollowInside(d, forms[1..], s.included, dir);
      parts := [s.included[|included|..]] + rest;
      PartsCons(d, forms, parts[0], rest);
    }
  }

  lemma {:induction false} PartsCons(d: Disk, forms: seq<Sexpr>, part: seq<string>, rest: seq<seq<string>>)
    requires forms != [] && |rest| == |forms| - 1
    ensures Joined([part] + rest) == part + Joined(rest)
    ensures AllPlaced(d, forms, [part] + rest) == [Placed(d, forms[0], part)] + AllPlaced(d, forms[1..], rest)
    ensures AllBehind(d, forms, [part] + rest) == Behind(d, forms[0], part) + AllBehind(d, forms[1..], rest)
  {
    hide Placed, Behind;
    assert ([part] + rest)[1..] == rest;
  }

  lemma {:induction false} NothingWalked(d: Disk, included: seq<string>, dir: string)
    ensures Walk(d, [], included, dir) == Some(Merged([], [], included))
  {
  }

  lemma {:induction false} InsideRest(forms: seq<Sexpr>)
    requires forms != [] && FlatInside(forms)
    ensures FlatInside(forms[1..]) && (LivePath(forms[0]).None? && IsScope(forms[0]) ==> Flat(forms[0].items))
  {
    hide Flat, LivePath, IsScope;
  }

  lemma {:induction false} FormPlaced(d: Disk, f: Sexpr, included: seq<string>, dir: string)
    requires Serve(d, f, included, dir).Some?
    requires LivePath(f).None? && IsScope(f) ==> Flat(f.items)
    requires FilesFlat(d, Serve(d, f, included, dir).value.included[|included|..])
    ensures var s := Serve(d, f, included, dir).value;
            var files := s.included[|included|..];
            s.form == Placed(d, f, files) && s.chunk == Behind(d, f, files)
  {
    hide Unread, Walk, Load, Flat, FilesFlat, Contents, Clean, CleanForm;
    if LivePath(f).Some? {
      FileFollows(d, f, included, dir);
      assert Blanked([f])[0] == Blank(f);
    } else if IsScope(f) {
      FilesFollow(d, f.items, included, dir);
    }
  }
}
