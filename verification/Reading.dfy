/** How stage0 reads forms as programs (expr.c, stmt.c, program.c).  Where it stops with a
    diagnostic, and for forms outside the modelled language, the result is None. */
module Reading {
  import opened Wrappers
  import opened Types
  import opened Values
  import opened Decimal
  import opened Env
  import opened Sexprs
  import W = Weave

  type Aliases = map<string, TypeRef>

  // ---------- small readers ----------

  /** list_nth of a list */
  function Nth(items: seq<Sexpr>, i: nat): Option<Sexpr> {
    if i < |items| then Some(items[i]) else None
  }

  /** atom_text; a missing node and a list have none. */
  function TextOf(n: Option<Sexpr>): string {
    match n
    case None => ""
    case Some(List(_)) => ""
    case Some(Atom(s)) => s
    case Some(Str(s)) => s
  }

  function TypeAt(items: seq<Sexpr>, i: nat, al: Aliases): TypeRef {
    if i < |items| then ParseType(al, items[i]) else I32
  }

  predicate HeadIs(n: Option<Sexpr>, s: string) {
    n.Some? && n.value.List? && n.value.items != [] && n.value.items[0] == Atom(s)
  }

  function Unsigned(s: string): string {
    if s != "" && (s[0] == '-' || s[0] == '+') then s[1..] else s
  }

  /** is_number_atom: an optional sign and digits */
  predicate IsNumber(s: string) {
    Unsigned(s) != "" && forall k :: 0 <= k < |Unsigned(s)| ==> IsDigit(Unsigned(s)[k])
  }

  /** atoi: the number, cut to 64 and then to 32 bits */
  function NumberOf(s: string): int
    requires IsNumber(s)
  {
    var n: int := NumeralValue(Unsigned(s));
    Wrap(Clamped(if s[0] == '-' then -n else n))
  }

  function Clamped(n: int): int {
    var top := 0x8000_0000_0000_0000;
    if n < -top then -top else if n >= top then top - 1 else n
  }

  // ---------- expressions and statements ----------

  function OperatorOf(s: string): Option<W.Operator> {
    if s == "+" then Some(W.Arith(W.Plus))
    else if s == "-" then Some(W.Arith(W.Minus))
    else if s == "*" then Some(W.Arith(W.Times))
    else if s == "/" then Some(W.Arith(W.Divide))
    else if s == "==" then Some(W.Cmp(W.Equal))
    else if s == "!=" then Some(W.Cmp(W.NotEqual))
    else if s == "<" then Some(W.Cmp(W.Less))
    else if s == "<=" then Some(W.Cmp(W.LessEq))
    else if s == ">" then Some(W.Cmp(W.Greater))
    else if s == ">=" then Some(W.Cmp(W.GreaterEq))
    else if s == "&&" then Some(W.Logic(W.Both))
    else if s == "||" then Some(W.Logic(W.Either))
    else None
  }

  /** Heads of expression forms outside the modelled language. */
  predicate IsForeign(s: string) {
    s in ["block", "addr-of", "make", "ptr-add", "get-field", "bitcast", "llvm-jit", "ccall"]
  }

  /** cg_expr's dispatch: unknown shapes read as 0, further operands are ignored. */
  function ReadExpr(e: Sexpr, al: Aliases): Option<W.Expr>
    decreases e, 1
  {
    match e
    case Str(_) => None
    case Atom(s) => Some(if IsNumber(s) then W.Const(NumberOf(s)) else W.Var(s))
    case List(items) =>
      if items == [] || !items[0].Atom? then Some(W.Const(0))
      else
        var h := items[0].text;
        if h == "doc" then Some(W.Const(0))
        else if IsForeign(h) then None
        else if h == "addr" then
          Some(if |items| > 1 && items[1].Atom? then W.AddrOf(items[1].text) else W.Const(0))
        else if h == "load" then
          (match ReadNth(items, 2, al) case None => None case Some(p) => Some(W.Deref(TypeAt(items, 1, al), p)))
        else if OperatorOf(h).Some? then
          (match (ReadNth(items, 1, al), ReadNth(items, 2, al))
           case (Some(l), Some(r)) => Some(W.Binary(OperatorOf(h).value, l, r))
           case _ => None)
        else match ReadExprs(items[1..], al) case None => None case Some(es) => Some(W.CallFn(h, es))
  }

  /** A missing operand reads as 0. */
  function ReadNth(items: seq<Sexpr>, i: nat, al: Aliases): Option<W.Expr>
    decreases items, 0
  {
    if i < |items| then ReadExpr(items[i], al) else Some(W.Const(0))
  }

  function ReadExprs(es: seq<Sexpr>, al: Aliases): Option<seq<W.Expr>>
    decreases es, 0
  {
    if es == [] then Some([])
    else match (ReadExpr(es[0], al), ReadExprs(es[1..], al))
         case (Some(h), Some(t)) => Some([h] + t)
         case _ => None
  }

  /** cg_stmt's dispatch: what is not a form with an atom head is skipped. */
  function ReadStmt(s: Sexpr, al: Aliases): Option<W.Stmt>
    decreases s, 1
  {
    if !s.List? || s.items == [] || !s.items[0].Atom? || s.items[0].text == "doc" then Some(W.Nop)
    else
      var items := s.items;
      var h := items[0].text;
      if h == "return" then
        (match ReadNth(items, 1, al) case None => None case Some(e) => Some(W.Return(e)))
      else if h == "store" then
        (match (ReadNth(items, 2, al), ReadNth(items, 3, al))
         case (Some(p), Some(e)) => Some(W.StoreTo(TypeAt(items, 1, al), p, e))
         case _ => None)
      else if h == "set-field" then None
      else if h == "let" then
        (match (ReadNth(items, 3, al), if |items| > 4 then ReadStmts(items[4..], al) else Some([]))
         case (Some(e), Some(rest)) => Some(W.Let(TextOf(Nth(items, 1)), TypeAt(items, 2, al), e, rest))
         case _ => None)
      else if h == "set" then
        (match ReadNth(items, 2, al) case None => None case Some(e) => Some(W.Set(TextOf(Nth(items, 1)), e)))
      else if h == "do" then
        (match ReadStmts(items[1..], al) case None => None case Some(ss) => Some(W.Do(ss)))
      else if h == "if-stmt" then
        (match (ReadNth(items, 1, al), ReadStmtNth(items, 2, al), ReadStmtNth(items, 3, al))
         case (Some(c), Some(t), Some(f)) => Some(W.If(c, t, f))
         case _ => None)
      else if h == "while" then
        (match (ReadNth(items, 1, al), ReadStmtNth(items, 2, al))
         case (Some(c), Some(b)) => Some(W.While(c, b))
         case _ => None)
      else match ReadExpr(s, al) case None => None case Some(e) => Some(W.Eval(e))
  }

  function ReadStmtNth(items: seq<Sexpr>, i: nat, al: Aliases): Option<W.Stmt>
    decreases items, 0
  {
    if i < |items| then ReadStmt(items[i], al) else Some(W.Nop)
  }

  function ReadStmts(ss: seq<Sexpr>, al: Aliases): Option<seq<W.Stmt>>
    decreases ss, 0
  {
    if ss == [] then Some([])
    else match (ReadStmt(ss[0], al), ReadStmts(ss[1..], al))
         case (Some(h), Some(t)) => Some([h] + t)
         case _ => None
  }

  // ---------- incomplete and overlong forms ----------

  /** A missing operand reads as 0, and operands beyond the second are ignored. */
  lemma {:induction false} OperandsRead(h: string, a: Sexpr, b: Sexpr, more: seq<Sexpr>, al: Aliases)
    requires OperatorOf(h).Some?
    ensures ReadExpr(List([Atom(h)]), al) == ReadExpr(List([Atom(h), Atom("0"), Atom("0")]), al)
    ensures ReadExpr(List([Atom(h), a]), al) == ReadExpr(List([Atom(h), a, Atom("0")]), al)
    ensures ReadExpr(List([Atom(h), a, b] + more), al) == ReadExpr(List([Atom(h), a, b]), al)
  {
    hide OperatorOf, IsForeign;
    OperatorIsOwn(h);
    ZeroRead(al);
    var items := [Atom(h), a, b] + more;
    assert items[0] == Atom(h) && items[1] == a && items[2] == b;
  }

  lemma {:induction false} OperatorIsOwn(h: string)
    requires OperatorOf(h).Some?
    ensures h != "doc" && !IsForeign(h) && h != "addr" && h != "load"
  {
  }

  lemma {:induction false} ZeroRead(al: Aliases)
    ensures ReadExpr(Atom("0"), al) == Some(W.Const(0))
  {
    assert Unsigned("0") == "0" && IsNumber("0");
    assert NumeralValue("0") == 0;
  }

  /** An `if-stmt` without an `else` does nothing there, a `return` without a value returns 0, and
      a `let` without an initialiser starts with 0. */
  lemma {:induction false} StatementsRead(c: Sexpr, t: Sexpr, x: Sexpr, ty: Sexpr, al: Aliases)
    ensures ReadStmt(List([Atom("if-stmt"), c, t]), al) == ReadStmt(List([Atom("if-stmt"), c, t, List([])]), al)
    ensures ReadStmt(List([Atom("return")]), al) == ReadStmt(List([Atom("return"), Atom("0")]), al)
    ensures ReadStmt(List([Atom("let"), x, ty]), al) == ReadStmt(List([Atom("let"), x, ty, Atom("0")]), al)
    ensures ReadStmt(List([Atom("doc"), x]), al) == Some(W.Nop) && ReadStmt(Atom("x"), al) == Some(W.Nop)
  {
    hide ReadExpr, ReadStmts;
    ZeroRead(al);
    var i3, i4 := [Atom("if-stmt"), c, t], [Atom("if-stmt"), c, t, List([])];
    assert ReadStmtNth(i3, 3, al) == Some(W.Nop) == ReadStmtNth(i4, 3, al);
    assert ReadStmtNth(i3, 2, al) == ReadStmt(t, al) == ReadStmtNth(i4, 2, al);
    assert ReadNth(i3, 1, al) == ReadExpr(c, al) == ReadNth(i4, 1, al);
    assert ReadStmt(List(i3), al) == ReadStmt(List(i4), al);
  }

  // ---------- functions ----------

  /** The parts of a function form, behind its name and an optional doc. */
  datatype FnParts = FnParts(params: Option<Sexpr>, result: Option<Sexpr>, body: Option<Sexpr>, extras: seq<Sexpr>)

  function PartsOf(items: seq<Sexpr>): FnParts {
    var i := if HeadIs(Nth(items, 2), "doc") then 3 else 2;
    FnParts(Nth(items, i), Nth(items, i + 1), Nth(items, i + 2), if |items| > i + 3 then items[i + 3..] else [])
  }

  function RetOf(p: FnParts, al: Aliases): TypeRef {
    if HeadIs(p.result, "returns") then TypeAt(p.result.value.items, 1, al) else I32
  }

  function ParamForms(p: FnParts): seq<Sexpr> {
    if HeadIs(p.params, "params") then p.params.value.items[1..] else []
  }

  /** A parameter as compile_fn_form and emit_fn_header see it. */
  function ParamOf(f: Sexpr, al: Aliases): Entry {
    if f.List? then Entry(TextOf(Nth(f.items, 0)), TypeAt(f.items, 1, al)) else Entry("arg", I32)
  }

  /** They skip an empty list and a parameter without a name. */
  predicate Counts(f: Sexpr, al: Aliases) {
    f != List([]) && ParamOf(f, al).name != ""
  }

  function HeaderParams(fs: seq<Sexpr>, al: Aliases): seq<Entry> {
    if fs == [] then []
    else (if Counts(fs[0], al) then [ParamOf(fs[0], al)] else []) + HeaderParams(fs[1..], al)
  }

  /** collect_signature_form counts every entry, unless an empty list is the only one. */
  function SigParams(fs: seq<Sexpr>, al: Aliases): seq<TypeRef> {
    if fs == [List([])] then [] else SigTypes(fs, al)
  }

  function SigTypes(fs: seq<Sexpr>, al: Aliases): (tys: seq<TypeRef>)
    ensures |tys| == |fs|
  {
    if fs == [] then [] else [if fs[0] == List([]) then I32 else ParamOf(fs[0], al).ty] + SigTypes(fs[1..], al)
  }

  /** The signature that calls are compiled against. */
  function CallSig(items: seq<Sexpr>, al: Aliases): W.Sig {
    W.Sig(RetOf(PartsOf(items), al), SigParams(ParamForms(PartsOf(items)), al))
  }

  /** The signature of the emitted definition. */
  function DefinedSig(items: seq<Sexpr>, al: Aliases): W.Sig {
    W.Sig(RetOf(PartsOf(items), al), W.EntryTypes(HeaderParams(ParamForms(PartsOf(items)), al)))
  }

  /** Every entry counts, or there is just an empty one. */
  predicate PlainParams(fs: seq<Sexpr>, al: Aliases) {
    fs == [List([])] || forall k :: 0 <= k < |fs| ==> Counts(fs[k], al)
  }

  lemma {:induction false} HeaderShorter(fs: seq<Sexpr>, al: Aliases)
    ensures |HeaderParams(fs, al)| <= |fs|
    ensures |HeaderParams(fs, al)| == |fs| <==> forall k :: 0 <= k < |fs| ==> Counts(fs[k], al)
    ensures |HeaderParams(fs, al)| == |fs| ==> W.EntryTypes(HeaderParams(fs, al)) == SigTypes(fs, al)
  {
    if fs != [] {
      HeaderShorter(fs[1..], al);
      assert (forall k :: 0 <= k < |fs| ==> Counts(fs[k], al)) <==>
             Counts(fs[0], al) && forall k :: 0 <= k < |fs[1..]| ==> Counts(fs[1..][k], al) by {
        assert forall k :: 0 < k < |fs| ==> fs[k] == fs[1..][k - 1];
      }
      if |HeaderParams(fs, al)| == |fs| {
        assert HeaderParams(fs, al)[1..] == HeaderParams(fs[1..], al);
      }
    }
  }

  /** Calls are compiled against the signature of the definition exactly when every
      parameter entry counts, or an empty list stands for no parameters. */
  lemma {:induction false} CallsAgreeExactly(items: seq<Sexpr>, al: Aliases)
    ensures CallSig(items, al) == DefinedSig(items, al) <==> PlainParams(ParamForms(PartsOf(items)), al)
  {
    var fs := ParamForms(PartsOf(items));
    HeaderShorter(fs, al);
    if fs == [List([])] {
      assert fs[1..] == [];
    }
  }

  // ---------- programs ----------

  /** Functions must carry at least one test; entries need none. */
  predicate TestsOk(extras: seq<Sexpr>) {
    extras != [] && if HeadIs(Some(extras[0]), "tests") then |extras[0].items| >= 2 else TestsOk(extras[1..])
  }

  predicate IsFnForm(f: Sexpr) {
    HeadIs(Some(f), "fn") || HeadIs(Some(f), "entry")
  }

  function NameOf(f: Sexpr): string
    requires IsFnForm(f)
  {
    if HeadIs(Some(f), "entry") then "main" else TextOf(Nth(f.items, 1))
  }

  function ReadBody(body: Option<Sexpr>, al: Aliases): Option<seq<W.Stmt>> {
    match body
    case None => Some([])
    case Some(b) => if HeadIs(body, "body") then ReadStmts(b.items[1..], al) else ReadStmts([b], al)
  }

  /** compile_fn_form's reading of its form */
  function ReadFn(f: Sexpr, al: Aliases): Option<W.FnDef>
    requires IsFnForm(f)
  {
    var p := PartsOf(f.items);
    if HeadIs(Some(f), "fn") && !TestsOk(p.extras) then None
    else match ReadBody(p.body, al)
         case None => None
         case Some(ss) => Some(W.FnDef(NameOf(f), HeaderParams(ParamForms(p), al), RetOf(p, al), ss))
  }

  /** The function forms, modules and programs being opened. */
  function FnForms(forms: seq<Sexpr>): (fs: seq<Sexpr>)
    ensures forall k :: 0 <= k < |fs| ==> IsFnForm(fs[k])
  {
    if forms == [] then [] else FnFormsIn(forms[0]) + FnForms(forms[1..])
  }

  function FnFormsIn(f: Sexpr): (fs: seq<Sexpr>)
    ensures forall k :: 0 <= k < |fs| ==> IsFnForm(fs[k])
  {
    if HeadIs(Some(f), "module") || HeadIs(Some(f), "program") then FnForms(f.items[1..])
    else if IsFnForm(f) then [f]
    else []
  }

  /** The alias table after collect_types. */
  function AliasesOf(forms: seq<Sexpr>, al: Aliases): Aliases {
    if forms == [] then al else AliasesOf(forms[1..], AliasesIn(forms[0], al))
  }

  function AliasesIn(f: Sexpr, al: Aliases): Aliases {
    if HeadIs(Some(f), "module") || HeadIs(Some(f), "program") then AliasesOf(f.items[1..], al)
    else if HeadIs(Some(f), "type") && HeadIs(Nth(f.items, 2), "alias")
    then al[TextOf(Nth(f.items, 1)) := TypeAt(f.items[2].items, 1, al)]
    else al
  }

  function ReadFns(fs: seq<Sexpr>, al: Aliases): Option<W.Program>
    requires forall k :: 0 <= k < |fs| ==> IsFnForm(fs[k])
  {
    if fs == [] then Some([])
    else
      var n := |fs| - 1;
      match (ReadFns(fs[..n], al), ReadFn(fs[n], al))
      case (Some(p), Some(fn)) => Some(p + [fn])
      case _ => None
  }

  /** The program that a list of top-level forms stands for. */
  function ReadProgram(forms: seq<Sexpr>): Option<W.Program> {
    ReadFns(FnForms(forms), AliasesOf(forms, map[]))
  }

  // ---------- the signature table ----------

  /** Functions whose signatures stage0 registers itself, after collection. */
  predicate IsBuiltin(f: string) {
    f in ["arena-create", "arena-kind", "llvm-jit-compile", "llvm-jit-call", "llvm-compile-ir-to-assembly",
          "llvm-compile-ir-to-object", "llvm-link-objects"]
  }

  function WithBuiltins(t: W.Sigs): W.Sigs {
    var arena := Ptr(Struct("Arena"));
    t["arena-create" := W.Sig(arena, [I32])]
     ["arena-kind" := W.Sig(I32, [arena, I32])]
     ["llvm-jit-compile" := W.Sig(I32, [I8Ptr, I8Ptr])]
     ["llvm-jit-call" := W.Sig(I32, [I8Ptr, I8Ptr, I32, I32])]
     ["llvm-compile-ir-to-assembly" := W.Sig(I32, [I8Ptr, I8Ptr, I32])]
     ["llvm-compile-ir-to-object" := W.Sig(I32, [I8Ptr, I8Ptr, I32])]
     ["llvm-link-objects" := W.Sig(I32, [I8Ptr, I8Ptr, I8Ptr])]
     ["arena-kind" := W.Sig(I32, [arena, I32])]
  }

  lemma {:induction false} BuiltinsApart(t: W.Sigs, f: string)
    requires !IsBuiltin(f)
    ensures f in WithBuiltins(t) <==> f in t
    ensures f in t ==> WithBuiltins(t)[f] == t[f]
  {
  }

  /** collect_signatures: a later form overwrites an earlier one. */
  function Collected(fs: seq<Sexpr>, al: Aliases): W.Sigs
    requires forall k :: 0 <= k < |fs| ==> IsFnForm(fs[k])
  {
    if fs == [] then map[]
    else
      var n := |fs| - 1;
      var t := Collected(fs[..n], al);
      var name := NameOf(fs[n]);
      var skipped := HeadIs(Some(fs[n]), "fn") && (name == "arena-kind" || name == "arena-create");
      if skipped || name == "" then t else t[name := CallSig(fs[n].items, al)]
  }

  /** The table that calls are compiled against. */
  function Table(forms: seq<Sexpr>): W.Sigs {
    WithBuiltins(Collected(FnForms(forms), AliasesOf(forms, map[])))
  }

  /** Names and parameters for which collection and definition see the same. */
  predicate PlainFn(f: Sexpr, al: Aliases)
    requires IsFnForm(f)
  {
    NameOf(f) != "" && !IsBuiltin(NameOf(f)) && PlainParams(ParamForms(PartsOf(f.items)), al)
  }

  predicate AllPlain(fs: seq<Sexpr>, al: Aliases) {
    forall k :: 0 <= k < |fs| ==> IsFnForm(fs[k]) && PlainFn(fs[k], al)
  }

  lemma {:induction false} CollectedIsSigs(fs: seq<Sexpr>, al: Aliases)
    requires AllPlain(fs, al)
    requires ReadFns(fs, al).Some?
    ensures Collected(fs, al) == W.SigsOf(ReadFns(fs, al).value)
    ensures forall f :: f in Collected(fs, al) ==> !IsBuiltin(f)
  {
    hide IsBuiltin, ReadBody, PartsOf, TestsOk;
    if fs != [] {
      var n := |fs| - 1;
      var p := ReadFns(fs, al).value;
      CollectedIsSigs(fs[..n], al);
      assert p[..|p| - 1] == ReadFns(fs[..n], al).value;
      assert PlainFn(fs[n], al);
      NotSkipped(fs[n], al);
      CallsAgreeExactly(fs[n].items, al);
    }
  }

  lemma {:induction false} NotSkipped(f: Sexpr, al: Aliases)
    requires IsFnForm(f) && PlainFn(f, al)
    ensures NameOf(f) != "arena-kind" && NameOf(f) != "arena-create"
  {
  }

  /** Calls agree with definitions: for plainly written functions, wherever they are
      defined, the table spells at each call the types of the definition. */
  lemma {:induction false} TableAgrees(forms: seq<Sexpr>)
    requires ReadProgram(forms).Some?
    requires AllPlain(FnForms(forms), AliasesOf(forms, map[]))
    ensures var sigs := W.SigsOf(ReadProgram(forms).value);
            forall f :: f in sigs ==> f in Table(forms) && Table(forms)[f] == sigs[f]
    ensures forall f :: f in Table(forms) ==> f in W.SigsOf(ReadProgram(forms).value) || IsBuiltin(f)
  {
    hide IsBuiltin, WithBuiltins, AllPlain, AliasesOf, Collected, ReadFns, W.SigsOf;
    CollectedIsSigs(FnForms(forms), AliasesOf(forms, map[]));
    var t := Collected(FnForms(forms), AliasesOf(forms, map[]));
    forall f | !IsBuiltin(f) ensures (f in Table(forms) <==> f in t) && (f in t ==> Table(forms)[f] == t[f]) {
      BuiltinsApart(t, f);
    }
  }
}
