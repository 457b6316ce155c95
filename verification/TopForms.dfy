/** Which forms of a source count: those at the top and, at any depth, inside modules and
    programs, in the order in which they stand. */
module TopForms {
  import opened Wrappers
  import opened Types
  import opened Env
  import opened Sexprs
  import opened Reading
  import opened Writing
  import W = Weave

  // ---------- places of forms ----------

  /** Function forms are compiled; alias forms name types. */
  datatype Kind = Functions | AliasForms

  predicate IsAlias(f: Sexpr) {
    HeadIs(Some(f), "type") && HeadIs(Nth(f.items, 2), "alias")
  }

  predicate IsOf(kind: Kind, f: Sexpr) {
    if kind.Functions? then IsFnForm(f) else IsAlias(f)
  }

  function FormsOf(kind: Kind, forms: seq<Sexpr>): seq<Sexpr> {
    if forms == [] then [] else FormsIn(kind, forms[0]) + FormsOf(kind, forms[1..])
  }

  function FormsIn(kind: Kind, f: Sexpr): seq<Sexpr> {
    if Opens(f) then FormsOf(kind, f.items[1..]) else if IsOf(kind, f) then [f] else []
  }

  predicate Opens(f: Sexpr) {
    HeadIs(Some(f), "module") || HeadIs(Some(f), "program")
  }

  /** The form at a place: its index, within modules or programs given by their indices. */
  function FormAt(forms: seq<Sexpr>, place: seq<nat>): Option<Sexpr> {
    if place == [] || place[0] >= |forms| then None
    else if |place| == 1 then Some(forms[place[0]])
    else if Opens(forms[place[0]]) then FormAt(forms[place[0]].items, place[1..])
    else None
  }

  /** The first place comes before the second in the text. */
  predicate Earlier(a: seq<nat>, b: seq<nat>) {
    a != [] && b != [] && (a[0] < b[0] || (a[0] == b[0] && Earlier(a[1..], b[1..])))
  }

  /** The forms `fs` stand at `places`. */
  predicate Stand(forms: seq<Sexpr>, fs: seq<Sexpr>, places: seq<seq<nat>>) {
    |places| == |fs| && forall k :: 0 <= k < |fs| ==> FormAt(forms, places[k]) == Some(fs[k])
  }

  predicate InOrder(places: seq<seq<nat>>) {
    forall j, k :: 0 <= j < k < |places| ==> Earlier(places[j], places[k])
  }

  ghost predicate NoneMissing(kind: Kind, forms: seq<Sexpr>, places: seq<seq<nat>>) {
    forall p :: FormAt(forms, p).Some? && IsOf(kind, FormAt(forms, p).value) ==> p in places
  }

  /** `places` are all places of forms of a kind, in the order of the text, and `fs` the forms
      there. */
  ghost predicate AllPlaces(kind: Kind, forms: seq<Sexpr>, fs: seq<Sexpr>, places: seq<seq<nat>>) {
    Stand(forms, fs, places) && InOrder(places) && NoneMissing(kind, forms, places)
  }

  /** Places inside form `i`, or behind the first `n` forms. */
  function Under(i: nat, places: seq<seq<nat>>): (r: seq<seq<nat>>)
    ensures |r| == |places| && forall k :: 0 <= k < |r| ==> r[k] == [i] + places[k]
  {
    if places == [] then [] else [[i] + places[0]] + Under(i, places[1..])
  }

  function Shift(places: seq<seq<nat>>): (r: seq<seq<nat>>)
    requires forall k :: 0 <= k < |places| ==> places[k] != []
    ensures |r| == |places| && forall k :: 0 <= k < |r| ==> r[k] == [places[k][0] + 1] + places[k][1..]
  {
    if places == [] then [] else [[places[0][0] + 1] + places[0][1..]] + Shift(places[1..])
  }

  lemma {:induction false} AtUnder(forms: seq<Sexpr>, p: seq<nat>)
    requires forms != [] && p != []
    ensures FormAt(forms, [0] + p) == if Opens(forms[0]) then FormAt(forms[0].items, p) else None
    ensures FormAt(forms, [p[0] + 1] + p[1..]) == FormAt(forms[1..], p)
  {
    hide Opens;
    assert ([0] + p)[1..] == p;
    var q := [p[0] + 1] + p[1..];
    assert q[1..] == p[1..];
    assert p[0] < |forms[1..]| ==> forms[1..][p[0]] == forms[q[0]];
  }

  lemma {:induction false} EarlierShift(a: seq<nat>, b: seq<nat>)
    requires Earlier(a, b)
    ensures Earlier([0] + a, [0] + b) && Earlier([a[0] + 1] + a[1..], [b[0] + 1] + b[1..])
  {
    assert ([0] + a)[1..] == a && ([0] + b)[1..] == b;
    assert ([a[0] + 1] + a[1..])[1..] == a[1..] && ([b[0] + 1] + b[1..])[1..] == b[1..];
  }

  lemma {:induction false} FormsInPlace(kind: Kind, forms: seq<Sexpr>) returns (places: seq<seq<nat>>)
    ensures AllPlaces(kind, forms, FormsOf(kind, forms), places)
    decreases forms
  {
    hide AllPlaces, Opens, IsOf;
    if forms == [] {
      places := [];
      NoPlaces(kind);
    } else {
      var inner := FormsInForm(kind, forms[0]);
      var rest := FormsInPlace(kind, forms[1..]);
      PlacesNonempty(kind, forms[1..], FormsOf(kind, forms[1..]), rest);
      places := inner + Shift(rest);
      PlacesJoin(kind, forms, inner, rest);
    }
  }

  lemma {:induction false} NoPlaces(kind: Kind)
    ensures AllPlaces(kind, [], [], [])
  {
  }

  lemma {:induction false} PlacesNonempty(kind: Kind, forms: seq<Sexpr>, fs: seq<Sexpr>, places: seq<seq<nat>>)
    requires AllPlaces(kind, forms, fs, places)
    ensures forall k :: 0 <= k < |places| ==> places[k] != []
  {
    forall k | 0 <= k < |places| ensures places[k] != [] {
      assert FormAt(forms, places[k]) == Some(fs[k]);
    }
  }

  lemma {:induction false} PlacesJoin(kind: Kind, forms: seq<Sexpr>, inner: seq<seq<nat>>, rest: seq<seq<nat>>)
    requires forms != [] && AllPlaces(kind, [forms[0]], FormsIn(kind, forms[0]), inner)
    requires AllPlaces(kind, forms[1..], FormsOf(kind, forms[1..]), rest)
    requires forall k :: 0 <= k < |rest| ==> rest[k] != []
    ensures AllPlaces(kind, forms, FormsOf(kind, forms), inner + Shift(rest))
  {
    hide Stand, InOrder, NoneMissing, FormsIn;
    JoinStand(forms, FormsIn(kind, forms[0]), FormsOf(kind, forms[1..]), inner, rest);
    JoinOrder(forms, FormsIn(kind, forms[0]), inner, rest);
    JoinMissing(kind, forms, inner, rest);
  }

  lemma {:induction false} JoinStand(forms: seq<Sexpr>, a: seq<Sexpr>, b: seq<Sexpr>, inner: seq<seq<nat>>,
          rest: seq<seq<nat>>)
    requires forms != [] && Stand([forms[0]], a, inner) && Stand(forms[1..], b, rest)
    requires forall k :: 0 <= k < |rest| ==> rest[k] != []
    ensures Stand(forms, a + b, inner + Shift(rest))
  {
    hide FormAt;
    var places := inner + Shift(rest);
    forall k | 0 <= k < |a + b| ensures FormAt(forms, places[k]) == Some((a + b)[k]) {
      if k < |a| {
        assert FormAt([forms[0]], inner[k]) == Some(a[k]);
        PlaceNonempty([forms[0]], inner[k]);
        AtFirst(forms, inner[k]);
      } else {
        assert FormAt(forms[1..], rest[k - |a|]) == Some(b[k - |a|]);
        AtUnder(forms, rest[k - |a|]);
      }
    }
  }

  lemma {:induction false} PlaceNonempty(forms: seq<Sexpr>, p: seq<nat>)
    ensures FormAt(forms, p).Some? ==> p != []
  {
  }

  lemma {:induction false} JoinOrder(forms: seq<Sexpr>, a: seq<Sexpr>, inner: seq<seq<nat>>, rest: seq<seq<nat>>)
    requires forms != [] && Stand([forms[0]], a, inner) && InOrder(inner) && InOrder(rest)
    requires forall k :: 0 <= k < |rest| ==> rest[k] != []
    ensures InOrder(inner + Shift(rest))
  {
    hide FormAt;
    var places := inner + Shift(rest);
    var n := |inner|;
    forall j, k | 0 <= j < k < |places| ensures Earlier(places[j], places[k]) {
      if j >= n {
        assert Earlier(rest[j - n], rest[k - n]);
        EarlierShift(rest[j - n], rest[k - n]);
      } else if k >= n {
        assert FormAt([forms[0]], inner[j]) == Some(a[j]);
        PlaceNonempty([forms[0]], inner[j]);
        AtFirst(forms, inner[j]);
      }
    }
  }

  lemma {:induction false} JoinMissing(kind: Kind, forms: seq<Sexpr>, inner: seq<seq<nat>>, rest: seq<seq<nat>>)
    requires forms != [] && NoneMissing(kind, [forms[0]], inner) && NoneMissing(kind, forms[1..], rest)
    requires forall k :: 0 <= k < |rest| ==> rest[k] != []
    ensures NoneMissing(kind, forms, inner + Shift(rest))
  {
    hide FormAt, IsOf;
    var places := inner + Shift(rest);
    forall p | FormAt(forms, p).Some? && IsOf(kind, FormAt(forms, p).value) ensures p in places {
      PlaceNonempty(forms, p);
      if p[0] == 0 {
        AtFirst(forms, p);
        assert p in inner;
      } else {
        var q := [p[0] - 1] + p[1..];
        assert [q[0] + 1] + q[1..] == p;
        AtUnder(forms, q);
        assert q in rest;
        var k :| 0 <= k < |rest| && rest[k] == q;
        assert places[|inner| + k] == p;
      }
    }
  }

  /** A place in the first form. */
  lemma {:induction false} AtFirst(forms: seq<Sexpr>, p: seq<nat>)
    requires forms != [] && p != []
    ensures p[0] == 0 ==> FormAt([forms[0]], p) == FormAt(forms, p)
    ensures FormAt([forms[0]], p).Some? ==> p[0] == 0
  {
  }

  lemma {:induction false} FormsInForm(kind: Kind, f: Sexpr) returns (places: seq<seq<nat>>)
    ensures AllPlaces(kind, [f], FormsIn(kind, f), places)
    decreases f
  {
    hide AllPlaces, IsOf;
    if Opens(f) {
      var rest := FormsInPlace(kind, f.items[1..]);
      PlacesNonempty(kind, f.items[1..], FormsOf(kind, f.items[1..]), rest);
      places := Under(0, Shift(rest));
      PlacesInside(kind, f, rest);
    } else if IsOf(kind, f) {
      places := [[0]];
      OnePlace(kind, f);
    } else {
      places := [];
      OtherForm(kind, f);
    }
  }

  lemma {:induction false} PlacesInside(kind: Kind, f: Sexpr, rest: seq<seq<nat>>)
    requires Opens(f) && AllPlaces(kind, f.items[1..], FormsOf(kind, f.items[1..]), rest)
    requires forall k :: 0 <= k < |rest| ==> rest[k] != []
    ensures AllPlaces(kind, [f], FormsOf(kind, f.items[1..]), Under(0, Shift(rest)))
  {
    hide Stand, InOrder, NoneMissing;
    InsideStand(kind, f, FormsOf(kind, f.items[1..]), rest);
    InsideOrder(rest);
    InsideMissing(kind, f, rest);
  }

  lemma {:induction false} InsideStand(kind: Kind, f: Sexpr, fs: seq<Sexpr>, rest: seq<seq<nat>>)
    requires Opens(f) && Stand(f.items[1..], fs, rest) && forall k :: 0 <= k < |rest| ==> rest[k] != []
    ensures Stand([f], fs, Under(0, Shift(rest)))
  {
    OpensNoForm(kind, f);
    hide FormAt, Opens;
    var places := Under(0, Shift(rest));
    forall k | 0 <= k < |fs| ensures FormAt([f], places[k]) == Some(fs[k]) {
      AtUnder([f], Shift(rest)[k]);
      AtUnder(f.items, rest[k]);
    }
  }

  lemma {:induction false} InsideOrder(rest: seq<seq<nat>>)
    requires InOrder(rest) && forall k :: 0 <= k < |rest| ==> rest[k] != []
    ensures InOrder(Under(0, Shift(rest)))
  {
    hide Earlier;
    var places := Under(0, Shift(rest));
    forall j, k | 0 <= j < k < |places| ensures Earlier(places[j], places[k]) {
      EarlierShift(rest[j], rest[k]);
      EarlierShift(Shift(rest)[j], Shift(rest)[k]);
    }
  }

  lemma {:induction false} InsideMissing(kind: Kind, f: Sexpr, rest: seq<seq<nat>>)
    requires Opens(f) && NoneMissing(kind, f.items[1..], rest) && forall k :: 0 <= k < |rest| ==> rest[k] != []
    ensures NoneMissing(kind, [f], Under(0, Shift(rest)))
  {
    OpensNoForm(kind, f);
    hide FormAt, IsOf, Opens;
    var places := Under(0, Shift(rest));
    forall p | FormAt([f], p).Some? && IsOf(kind, FormAt([f], p).value) ensures p in places {
      OnlyFirst(f, p);
      var q := p[1..];
      assert p == [0] + q;
      if q != [] {
        AtUnder([f], q);
        if q[0] == 0 {
          HeadHoldsNothing(kind, f, q);
        } else {
          var r := [q[0] - 1] + q[1..];
          assert [r[0] + 1] + r[1..] == q;
          AtUnder(f.items, r);
          assert r in rest;
          var k :| 0 <= k < |rest| && rest[k] == r;
          assert Shift(rest)[k] == q && places[k] == p;
        }
      } else {
        OneForm(f);
      }
    }
  }

  lemma {:induction false} OnlyFirst(f: Sexpr, p: seq<nat>)
    ensures FormAt([f], p).Some? ==> p != [] && p[0] == 0
  {
  }

  lemma {:induction false} OneForm(f: Sexpr)
    ensures FormAt([f], [0]) == Some(f)
  {
  }

  /** A module is no function, and its head neither a function nor a module. */
  lemma {:induction false} OpensNoForm(kind: Kind, f: Sexpr)
    requires Opens(f)
    ensures f.List? && f.items != [] && !IsOf(kind, f) && !IsOf(kind, f.items[0]) && !Opens(f.items[0])
  {
  }

  lemma {:induction false} HeadHoldsNothing(kind: Kind, f: Sexpr, q: seq<nat>)
    requires Opens(f) && q != [] && q[0] == 0
    ensures FormAt(f.items, q).Some? ==> !IsOf(kind, FormAt(f.items, q).value)
  {
    hide IsOf;
    OpensNoForm(kind, f);
  }

  lemma {:induction false} OnePlace(kind: Kind, f: Sexpr)
    requires IsOf(kind, f) && !Opens(f)
    ensures AllPlaces(kind, [f], [f], [[0]])
  {
    hide IsOf;
    hide Opens;
    forall p | FormAt([f], p).Some? ensures p in [[0]] {
      assert p == [0];
    }
  }

  lemma {:induction false} OtherForm(kind: Kind, f: Sexpr)
    requires !IsOf(kind, f) && !Opens(f)
    ensures AllPlaces(kind, [f], [], [])
  {
    hide IsOf;
    hide Opens;
  }

  // ---------- functions and aliases ----------

  lemma {:induction false} FunctionsAre(forms: seq<Sexpr>)
    ensures FormsOf(Functions, forms) == FnForms(forms)
    decreases forms
  {
    if forms != [] {
      if Opens(forms[0]) {
        FunctionsAre(forms[0].items[1..]);
      }
      FunctionsAre(forms[1..]);
    }
  }

  /** The function forms that stage0 compiles are exactly those that stand at the top or inside
      modules and programs, each as often as it stands there, in the order of the text. */
  lemma {:induction false} FunctionsInPlace(forms: seq<Sexpr>) returns (places: seq<seq<nat>>)
    ensures AllPlaces(Functions, forms, FnForms(forms), places)
  {
    hide AllPlaces;
    places := FormsInPlace(Functions, forms);
    FunctionsAre(forms);
  }

  predicate OnlyAliases(fs: seq<Sexpr>) {
    forall k :: 0 <= k < |fs| ==> IsAlias(fs[k])
  }

  lemma {:induction false} OnlyBoth(a: seq<Sexpr>, b: seq<Sexpr>)
    requires OnlyAliases(a) && OnlyAliases(b)
    ensures OnlyAliases(a + b)
  {
    hide IsAlias;
  }

  /** Each alias form defines a name; a later one overrides an earlier one. */
  function Defined(fs: seq<Sexpr>, al: Aliases): Aliases
    requires OnlyAliases(fs)
  {
    if fs == [] then al
    else
      assert IsAlias(fs[0]);
      Defined(fs[1..], Define(fs[0], al))
  }

  function Define(f: Sexpr, al: Aliases): Aliases
    requires IsAlias(f)
  {
    al[TextOf(Nth(f.items, 1)) := TypeAt(f.items[2].items, 1, al)]
  }

  lemma {:induction false} AreAliases(forms: seq<Sexpr>)
    ensures OnlyAliases(FormsOf(AliasForms, forms))
    decreases forms
  {
    if forms != [] {
      if Opens(forms[0]) {
        AreAliases(forms[0].items[1..]);
      }
      AreAliases(forms[1..]);
      OnlyBoth(FormsIn(AliasForms, forms[0]), FormsOf(AliasForms, forms[1..]));
    }
  }

  lemma {:induction false} DefinedAppend(a: seq<Sexpr>, b: seq<Sexpr>, al: Aliases)
    requires OnlyAliases(a) && OnlyAliases(b)
    ensures OnlyAliases(a + b) && Defined(a + b, al) == Defined(b, Defined(a, al))
    decreases |a|
  {
    hide IsAlias;
    if a == [] {
      assert a + b == b;
    } else {
      assert (a + b)[1..] == a[1..] + b;
      assert IsAlias(a[0]);
      DefinedAppend(a[1..], b, Define(a[0], al));
    }
  }

  /** The alias table is that of the alias forms at the top and inside modules and programs, in
      the order of the text; their places are told by `FormsInPlace`. */
  lemma {:induction false} AliasesInOrder(forms: seq<Sexpr>, al: Aliases)
    ensures OnlyAliases(FormsOf(AliasForms, forms))
    ensures AliasesOf(forms, al) == Defined(FormsOf(AliasForms, forms), al)
    decreases forms
  {
    AreAliases(forms);
    hide IsAlias;
    if forms != [] {
      AreAliases([forms[0]]);
      AreAliases(forms[1..]);
      AliasesInFirst(forms[0], al);
      AliasesInOrder(forms[1..], AliasesIn(forms[0], al));
      FirstForms(AliasForms, forms);
      DefinedAppend(FormsOf(AliasForms, [forms[0]]), FormsOf(AliasForms, forms[1..]), al);
    }
  }

  lemma {:induction false} FirstForms(kind: Kind, forms: seq<Sexpr>)
    requires forms != []
    ensures FormsOf(kind, [forms[0]]) == FormsIn(kind, forms[0])
    ensures FormsOf(kind, forms) == FormsOf(kind, [forms[0]]) + FormsOf(kind, forms[1..])
  {
    hide FormsIn;
    assert [forms[0]][1..] == [];
    assert FormsIn(kind, forms[0]) + FormsOf(kind, []) == FormsIn(kind, forms[0]);
  }

  lemma {:induction false} AliasesInFirst(f: Sexpr, al: Aliases)
    ensures OnlyAliases(FormsOf(AliasForms, [f]))
    ensures AliasesIn(f, al) == Defined(FormsOf(AliasForms, [f]), al)
    decreases f
  {
    AreAliases([f]);
    FirstForms(AliasForms, [f]);
    if Opens(f) {
      AliasesInOrder(f.items[1..], al);
    } else if IsAlias(f) {
      var fs := FormsOf(AliasForms, [f]);
      assert fs[1..] == [];
    }
  }

  // ---------- ways to write a function ----------

  /** An `entry` is called `main`; a doc may follow the name; a missing result is Int32; a body
      of one statement needs no `body`; sections behind it are skipped, but for the tests. */
  datatype Style = Style(entry: bool, doc: Option<seq<Sexpr>>, typed: bool, bare: bool, extras: seq<Sexpr>)

  datatype Item = Item(fn: W.FnDef, style: Style)

  function WriteItem(it: Item): Sexpr {
    var fn, st := it.fn, it.style;
    List([Atom(if st.entry then "entry" else "fn"), Atom(fn.name)] +
         (if st.doc.Some? then [List([Atom("doc")] + st.doc.value)] else []) +
         [List([Atom("params")] + WriteParams(fn.params)),
          if st.typed then List([Atom("returns"), WriteType(fn.ret)]) else Atom("-"),
          if st.bare && fn.body != [] then WriteStmt(fn.body[0]) else List([Atom("body")] + WriteStmts(fn.body))] +
         st.extras)
  }

  predicate ItemWritable(it: Item) {
    FnWritable(it.fn) && (it.style.entry ==> it.fn.name == "main") && (it.style.entry || TestsOk(it.style.extras)) &&
    (it.style.typed || it.fn.ret == I32) &&
    (it.style.bare ==> |it.fn.body| == 1 && !HeadIs(Some(WriteStmt(it.fn.body[0])), "body"))
  }

  lemma {:induction false} ItemIsFunction(it: Item)
    ensures var f := WriteItem(it); IsFnForm(f) && !Opens(f) && !IsAlias(f) && forall al :: AliasesIn(f, al) == al
  {
    var f := WriteItem(it);
    assert f.items[0] == Atom(if it.style.entry then "entry" else "fn");
  }

  /** The parts of a function form are found in every style. */
  lemma {:induction false} ItemParts(it: Item, al: Aliases)
    requires ItemWritable(it)
    ensures var f := WriteItem(it);
            var p := PartsOf(f.items);
            IsFnForm(f) && NameOf(f) == it.fn.name && ParamForms(p) == WriteParams(it.fn.params) &&
            RetOf(p, al) == it.fn.ret && (HeadIs(Some(f), "fn") ==> TestsOk(p.extras)) &&
            p.body == Some(if it.style.bare then WriteStmt(it.fn.body[0])
                           else List([Atom("body")] + WriteStmts(it.fn.body)))
  {
    hide WriteType, WriteStmt, WriteStmts, WriteParams, ParseType, TestsOk, FnWritable;
    ReadType(it.fn.ret, al);
    var items := WriteItem(it).items;
    var i := if it.style.doc.Some? then 3 else 2;
    assert items[0] == Atom(if it.style.entry then "entry" else "fn") && items[1] == Atom(it.fn.name);
    assert items[i] == List([Atom("params")] + WriteParams(it.fn.params));
    assert items[i].items[1..] == WriteParams(it.fn.params);
    assert items[2] == if it.style.doc.Some? then List([Atom("doc")] + it.style.doc.value) else items[i];
    assert items[i + 3..] == it.style.extras;
  }

  /** A function is read back in every style. */
  lemma {:induction false} ItemIsRead(it: Item, al: Aliases)
    requires ItemWritable(it)
    ensures var f := WriteItem(it); IsFnForm(f) && ReadFn(f, al) == Some(it.fn) && PlainFn(f, al)
  {
    hide PartsOf, NameOf, ParamForms, RetOf, TestsOk, ReadStmts, ReadStmt, HeaderParams, Counts, IsBuiltin, WriteItem,
      IsFnForm;
    ItemParts(it, al);
    ReadParams(it.fn.params, al);
    ReadWrittenStmts(it.fn.body, al);
    BodyIsRead(it, al);
  }

  lemma {:induction false} BodyIsRead(it: Item, al: Aliases)
    requires ItemWritable(it)
    ensures ReadBody(Some(if it.style.bare then WriteStmt(it.fn.body[0])
                          else List([Atom("body")] + WriteStmts(it.fn.body))), al) == Some(it.fn.body)
  {
    hide ReadStmt, WriteStmt, ReadStmts, IsBuiltin;
    var ss := it.fn.body;
    ReadWrittenStmts(ss, al);
    if it.style.bare {
      OneStmt(ss[0]);
      assert ss == [ss[0]];
    } else {
      assert ([Atom("body")] + WriteStmts(ss))[1..] == WriteStmts(ss);
    }
  }

  lemma {:induction false} OneStmt(s: W.Stmt)
    ensures WriteStmts([s]) == [WriteStmt(s)]
  {
    assert [s][1..] == [];
  }

  // ---------- programs in modules ----------

  /** A source: functions, type aliases and other forms, in any nesting of modules and
      programs. */
  datatype Part =
    | Fun(item: Item)
    | TypeAlias(name: string, ty: TypeRef)
    | Other(form: Sexpr)
    | Group(asProgram: bool, parts: seq<Part>)

  function WriteParts(parts: seq<Part>): seq<Sexpr> {
    if parts == [] then [] else [WritePart(parts[0])] + WriteParts(parts[1..])
  }

  function WritePart(p: Part): Sexpr {
    match p
    case Fun(it) => WriteItem(it)
    case TypeAlias(x, ty) => List([Atom("type"), Atom(x), List([Atom("alias"), WriteType(ty)])])
    case Other(f) => f
    case Group(program, parts) => List([Atom(if program then "program" else "module")] + WriteParts(parts))
  }

  /** The functions of a source, in the order of the text. */
  function ItemsOf(parts: seq<Part>): seq<Item> {
    if parts == [] then []
    else
      (match parts[0]
       case Fun(it) => [it]
       case Group(_, inner) => ItemsOf(inner)
       case _ => []) + ItemsOf(parts[1..])
  }

  function Definitions(its: seq<Item>): (p: W.Program)
    ensures |p| == |its| && forall k :: 0 <= k < |p| ==> p[k] == its[k].fn
  {
    if its == [] then [] else [its[0].fn] + Definitions(its[1..])
  }

  /** The types named by a source's aliases, on top of those of `al`. */
  function NamedTypes(parts: seq<Part>, al: Aliases): Aliases {
    if parts == [] then al
    else
      NamedTypes(parts[1..],
                 match parts[0]
                 case TypeAlias(x, ty) => al[x := ty]
                 case Group(_, inner) => NamedTypes(inner, al)
                 case _ => al)
  }

  /** Functions can be written, and other forms are none of those that count. */
  predicate PartsWritable(parts: seq<Part>) {
    parts == [] ||
    ((match parts[0]
      case Fun(it) => ItemWritable(it)
      case TypeAlias(_, _) => true
      case Other(f) => !Opens(f) && !IsFnForm(f) && !IsAlias(f)
      case Group(_, inner) => PartsWritable(inner)) &&
     PartsWritable(parts[1..]))
  }

  lemma {:induction false} WrittenAlias(x: string, ty: TypeRef, al: Aliases)
    ensures var f := WritePart(TypeAlias(x, ty));
            !Opens(f) && !IsFnForm(f) && AliasesIn(f, al) == al[x := ty]
  {
    hide WriteType, ParseType;
    ReadType(ty, al);
  }

  lemma {:induction false} WrittenGroup(program: bool, parts: seq<Part>)
    ensures var f := WritePart(Group(program, parts)); Opens(f) && f.items[1..] == WriteParts(parts)
  {
    hide WriteParts;
  }

  /** The written functions, in order. */
  function WrittenItems(its: seq<Item>): (r: seq<Sexpr>)
    ensures |r| == |its| && forall k :: 0 <= k < |r| ==> r[k] == WriteItem(its[k])
  {
    if its == [] then [] else [WriteItem(its[0])] + WrittenItems(its[1..])
  }

  lemma {:induction false} FormsOfParts(parts: seq<Part>)
    requires PartsWritable(parts)
    ensures FnForms(WriteParts(parts)) == WrittenItems(ItemsOf(parts))
    decreases parts
  {
    hide WriteItem, ItemWritable, IsFnForm, Opens, IsAlias;
    if parts != [] {
      FormsOfParts(parts[1..]);
      assert WriteParts(parts)[1..] == WriteParts(parts[1..]);
      FormOfPart(parts[0]);
      WrittenAppend(ItemsOf([parts[0]]), ItemsOf(parts[1..]));
      ItemsFirst(parts);
    }
  }

  lemma {:induction false} ItemsFirst(parts: seq<Part>)
    requires parts != []
    ensures ItemsOf(parts) == ItemsOf([parts[0]]) + ItemsOf(parts[1..])
  {
    assert [parts[0]][1..] == [];
    assert ItemsOf([]) == [];
  }

  lemma {:induction false} WrittenAppend(a: seq<Item>, b: seq<Item>)
    ensures WrittenItems(a + b) == WrittenItems(a) + WrittenItems(b)
  {
    hide WriteItem;
  }

  lemma {:induction false} FormOfPart(p: Part)
    requires PartsWritable([p])
    ensures FnFormsIn(WritePart(p)) == WrittenItems(ItemsOf([p]))
    decreases p
  {
    hide WriteItem, ItemWritable, IsAlias;
    assert [p][1..] == [] && ItemsOf([]) == [];
    match p
    case Fun(it) =>
      ItemIsFunction(it);
      assert ItemsOf([p]) == [it] && WrittenItems([it]) == [WriteItem(it)];
    case TypeAlias(x, ty) => WrittenAlias(x, ty, map[]);
    case Other(f) =>
    case Group(program, inner) =>
      WrittenGroup(program, inner);
      FormsOfParts(inner);
      assert ItemsOf([p]) == ItemsOf(inner);
  }

  lemma {:induction false} AliasesOfParts(parts: seq<Part>, al: Aliases)
    requires PartsWritable(parts)
    ensures AliasesOf(WriteParts(parts), al) == NamedTypes(parts, al)
    decreases parts
  {
    hide WriteItem, ItemWritable, IsFnForm, IsAlias;
    if parts != [] {
      assert WriteParts(parts)[1..] == WriteParts(parts[1..]);
      var next := AliasesIn(WritePart(parts[0]), al);
      match parts[0] {
        case Fun(it) => ItemIsFunction(it);
        case TypeAlias(x, ty) => WrittenAlias(x, ty, al);
        case Other(f) => OtherAliases(f, al);
        case Group(program, inner) =>
          WrittenGroup(program, inner);
          AliasesOfParts(inner, al);
      }
      AliasesOfParts(parts[1..], next);
    }
  }

  lemma {:induction false} OtherAliases(f: Sexpr, al: Aliases)
    requires !Opens(f) && !IsAlias(f)
    ensures AliasesIn(f, al) == al
  {
  }

  lemma {:induction false} AllWritable(parts: seq<Part>)
    requires PartsWritable(parts)
    ensures forall k :: 0 <= k < |ItemsOf(parts)| ==> ItemWritable(ItemsOf(parts)[k])
    decreases parts
  {
    hide ItemWritable, Opens, IsFnForm, IsAlias;
    if parts != [] {
      if parts[0].Group? {
        AllWritable(parts[0].parts);
      }
      AllWritable(parts[1..]);
    }
  }

  lemma {:induction false} ItemsAreRead(its: seq<Item>, al: Aliases)
    requires forall k :: 0 <= k < |its| ==> ItemWritable(its[k])
    ensures AllPlain(WrittenItems(its), al) && ReadFns(WrittenItems(its), al) == Some(Definitions(its))
    decreases |its|
  {
    hide ReadFn, WriteItem, ItemWritable, PlainFn, IsFnForm, WrittenItems, Definitions;
    var fs := WrittenItems(its);
    if its == [] {
      assert fs == [] && Definitions(its) == [];
    } else {
      var n := |its| - 1;
      ItemsAreRead(its[..n], al);
      ItemIsRead(its[n], al);
      assert fs[..n] == WrittenItems(its[..n]) && fs[n] == WriteItem(its[n]);
      assert Definitions(its[..n]) + [its[n].fn] == Definitions(its);
    }
  }

  /** Reading inverts writing, whatever modules and programs the functions are wrapped in,
      whatever other forms stand among them, and in whichever way each is written: the program
      read is that of the functions in the order of the text, and the table of types that of
      the aliases. */
  lemma {:induction false} ReadInvertsLayout(parts: seq<Part>)
    requires PartsWritable(parts)
    ensures var forms := WriteParts(parts);
            ReadProgram(forms) == Some(Definitions(ItemsOf(parts))) &&
            AliasesOf(forms, map[]) == NamedTypes(parts, map[]) && AllPlain(FnForms(forms), AliasesOf(forms, map[]))
  {
    hide FnForms, AliasesOf, ReadFns, ItemWritable, PartsWritable, WriteParts, AllPlain;
    FormsOfParts(parts);
    AliasesOfParts(parts, map[]);
    AllWritable(parts);
    ItemsAreRead(ItemsOf(parts), AliasesOf(WriteParts(parts), map[]));
  }

  /** Without tests a function is not compiled, and neither is the program; an entry needs none. */
  lemma {:induction false} TestsRequired(forms: seq<Sexpr>, k: nat)
    requires k < |FnForms(forms)| && HeadIs(Some(FnForms(forms)[k]), "fn")
    requires var extras := PartsOf(FnForms(forms)[k].items).extras;
             forall j :: 0 <= j < |extras| && HeadIs(Some(extras[j]), "tests") ==> |extras[j].items| < 2
    ensures ReadProgram(forms).None?
  {
    hide FnForms, AliasesOf, PartsOf, ReadBody;
    var fs := FnForms(forms);
    NoTests(PartsOf(fs[k].items).extras);
    OneUnread(fs, AliasesOf(forms, map[]), k);
  }

  lemma {:induction false} NoTests(extras: seq<Sexpr>)
    requires forall j :: 0 <= j < |extras| && HeadIs(Some(extras[j]), "tests") ==> |extras[j].items| < 2
    ensures !TestsOk(extras)
  {
    if extras != [] && !HeadIs(Some(extras[0]), "tests") {
      forall j | 0 <= j < |extras[1..]| && HeadIs(Some(extras[1..][j]), "tests") ensures |extras[1..][j].items| < 2 {
        assert extras[1..][j] == extras[j + 1];
      }
      NoTests(extras[1..]);
    }
  }

  lemma {:induction false} OneUnread(fs: seq<Sexpr>, al: Aliases, k: nat)
    requires (forall j :: 0 <= j < |fs| ==> IsFnForm(fs[j])) && k < |fs| && ReadFn(fs[k], al).None?
    ensures ReadFns(fs, al).None?
    decreases |fs|
  {
    hide ReadFn, IsFnForm;
    var n := |fs| - 1;
    if k < n {
      assert fs[..n][k] == fs[k];
      OneUnread(fs[..n], al, k);
    }
  }

  /** A type written by the name of an alias is read as the type that the alias names. */
  lemma {:induction false} AliasIsRead(al: Aliases, x: string)
    requires x in al && x != "Int32" && x != "Void" && !IsHandle(x)
    ensures ParseType(al, Atom(x)) == al[x]
  {
  }
}
