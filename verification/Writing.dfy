/** Every program of the modelled language can be written as forms that stage0 reads back. */
module Writing {
  import opened Wrappers
  import opened Types
  import opened Values
  import opened Decimal
  import opened Env
  import opened Sexprs
  import opened Reading
  import W = Weave

  // ---------- types and numbers ----------

  function WriteType(t: TypeRef): Sexpr {
    match t
    case I32 => Atom("Int32")
    case Void => Atom("Void")
    case I8Ptr => Atom("String")
    case Struct(n) => List([Atom("struct"), Atom(n)])
    case Ptr(p) => List([Atom("ptr"), WriteType(p)])
  }

  lemma {:induction false} ReadType(t: TypeRef, al: Aliases)
    ensures ParseType(al, WriteType(t)) == t
  {
    if t.Ptr? {
      ReadType(t.pointee, al);
    }
  }

  function WriteNumber(n: int): string {
    if n < 0 then "-" + Numeral(-n) else Numeral(n)
  }

  lemma {:induction false} ReadNumber(n: int)
    requires -TWO_31 <= n < TWO_31
    ensures IsNumber(WriteNumber(n)) && NumberOf(WriteNumber(n)) == n
  {
    var s := WriteNumber(n);
    var d := if n < 0 then -n else n;
    NumeralIsExact(d);
    WrapInRange(n);
    assert n < 0 ==> s[1..] == Numeral(d);
    assert IsDigit(Numeral(d)[0]);
    assert Unsigned(s) == Numeral(d);
  }

  // ---------- expressions ----------

  function OpName(op: W.Operator): string {
    match op
    case Arith(o) => (match o case Plus => "+" case Minus => "-" case Times => "*" case Divide => "/")
    case Cmp(o) =>
      (match o case Equal => "==" case NotEqual => "!=" case Less => "<" case LessEq => "<=" case Greater => ">"
               case GreaterEq => ">=")
    case Logic(o) => (match o case Both => "&&" case Either => "||")
  }

  lemma {:induction false} ReadOp(op: W.Operator)
    ensures OperatorOf(OpName(op)) == Some(op)
    ensures |OpName(op)| <= 2 && !IsForeign(OpName(op))
  {
  }

  function WriteExpr(e: W.Expr): Sexpr {
    match e
    case Const(n) => Atom(WriteNumber(n))
    case Var(x) => Atom(x)
    case Binary(op, l, r) => List([Atom(OpName(op)), WriteExpr(l), WriteExpr(r)])
    case AddrOf(x) => List([Atom("addr"), Atom(x)])
    case Deref(ty, p) => List([Atom("load"), WriteType(ty), WriteExpr(p)])
    case CallFn(f, args) => List([Atom(f)] + WriteExprs(args))
  }

  function WriteExprs(es: seq<W.Expr>): (r: seq<Sexpr>)
    ensures |r| == |es|
  {
    if es == [] then [] else [WriteExpr(es[0])] + WriteExprs(es[1..])
  }

  /** A name that heads an ordinary call. */
  predicate IsCallName(f: string) {
    f != "doc" && f != "addr" && f != "load" && !IsForeign(f) && OperatorOf(f).None?
  }

  /** Literals are 32-bit numbers and names do not read as something else. */
  predicate ExprWritable(e: W.Expr) {
    match e
    case Const(n) => -TWO_31 <= n < TWO_31
    case Var(x) => !IsNumber(x)
    case Binary(_, l, r) => ExprWritable(l) && ExprWritable(r)
    case AddrOf(_) => true
    case Deref(_, p) => ExprWritable(p)
    case CallFn(f, args) => IsCallName(f) && ExprsWritable(args)
  }

  predicate ExprsWritable(es: seq<W.Expr>) {
    es == [] || (ExprWritable(es[0]) && ExprsWritable(es[1..]))
  }

  lemma {:induction false} ReadWritten(e: W.Expr, al: Aliases)
    requires ExprWritable(e)
    ensures ReadExpr(WriteExpr(e), al) == Some(e)
    decreases e
  {
    hide OperatorOf, OpName, IsForeign, IsNumber, NumberOf, WriteNumber;
    match e
    case Const(n) => ReadNumber(n);
    case Var(_) =>
    case AddrOf(_) => AddrIsOwn();
    case Binary(op, l, r) =>
      ReadOp(op);
      ReadWritten(l, al);
      ReadWritten(r, al);
      var items := WriteExpr(e).items;
      assert ReadNth(items, 1, al) == Some(l) && ReadNth(items, 2, al) == Some(r);
    case Deref(ty, p) =>
      LoadIsOwn();
      ReadType(ty, al);
      ReadWritten(p, al);
      var items := WriteExpr(e).items;
      assert ReadNth(items, 2, al) == Some(p);
    case CallFn(f, args) =>
      ReadAllWritten(args, al);
      assert WriteExpr(e).items[1..] == WriteExprs(args);
  }

  lemma {:induction false} AddrIsOwn()
    ensures !IsForeign("addr")
  {
  }

  lemma {:induction false} LoadIsOwn()
    ensures !IsForeign("load")
  {
  }

  lemma {:induction false} ReadAllWritten(es: seq<W.Expr>, al: Aliases)
    requires ExprsWritable(es)
    ensures ReadExprs(WriteExprs(es), al) == Some(es)
    decreases es
  {
    if es != [] {
      ReadWritten(es[0], al);
      ReadAllWritten(es[1..], al);
      assert WriteExprs(es)[1..] == WriteExprs(es[1..]);
      assert [es[0]] + es[1..] == es;
    }
  }

  // ---------- statements ----------

  predicate IsStmtHead(s: string) {
    s in ["doc", "return", "store", "set-field", "let", "set", "do", "if-stmt", "while"]
  }

  function WriteStmt(s: W.Stmt): Sexpr {
    match s
    case Nop => List([])
    case Return(e) => List([Atom("return"), WriteExpr(e)])
    case StoreTo(ty, p, e) => List([Atom("store"), WriteType(ty), WriteExpr(p), WriteExpr(e)])
    case Let(x, ty, e, rest) => List([Atom("let"), Atom(x), WriteType(ty), WriteExpr(e)] + WriteStmts(rest))
    case Set(x, e) => List([Atom("set"), Atom(x), WriteExpr(e)])
    case Do(ss) => List([Atom("do")] + WriteStmts(ss))
    case If(c, t, f) => List([Atom("if-stmt"), WriteExpr(c), WriteStmt(t), WriteStmt(f)])
    case While(c, b) => List([Atom("while"), WriteExpr(c), WriteStmt(b)])
    case Eval(e) => WriteExpr(e)
  }

  function WriteStmts(ss: seq<W.Stmt>): (r: seq<Sexpr>)
    ensures |r| == |ss|
  {
    if ss == [] then [] else [WriteStmt(ss[0])] + WriteStmts(ss[1..])
  }

  /** An atom is no statement, and a call must not look like another statement. */
  predicate StmtWritable(s: W.Stmt) {
    match s
    case Nop => true
    case Return(e) => ExprWritable(e)
    case StoreTo(_, p, e) => ExprWritable(p) && ExprWritable(e)
    case Let(_, _, e, rest) => ExprWritable(e) && StmtsWritable(rest)
    case Set(_, e) => ExprWritable(e)
    case Do(ss) => StmtsWritable(ss)
    case If(c, t, f) => ExprWritable(c) && StmtWritable(t) && StmtWritable(f)
    case While(c, b) => ExprWritable(c) && StmtWritable(b)
    case Eval(e) => ExprWritable(e) && !e.Const? && !e.Var? && (e.CallFn? ==> !IsStmtHead(e.f))
  }

  predicate StmtsWritable(ss: seq<W.Stmt>) {
    ss == [] || (StmtWritable(ss[0]) && StmtsWritable(ss[1..]))
  }

  lemma {:induction false} OpIsNoStmtHead(op: W.Operator)
    ensures !IsStmtHead(OpName(op))
  {
    ReadOp(op);
    assert OperatorOf("do").None?;
  }

  lemma {:induction false} FixedHeads()
    ensures !IsStmtHead("addr") && !IsStmtHead("load")
  {
  }

  lemma {:induction false} ReadWrittenStmt(s: W.Stmt, al: Aliases)
    requires StmtWritable(s)
    ensures ReadStmt(WriteStmt(s), al) == Some(s)
    decreases s
  {
    hide ReadExpr, WriteExpr, ExprWritable, WriteType, ParseType, IsStmtHead;
    var items := if s.Eval? then [] else WriteStmt(s).items;
    match s
    case Nop =>
    case Return(e) =>
      ReadWritten(e, al);
      assert ReadNth(items, 1, al) == Some(e);
    case StoreTo(ty, p, e) =>
      ReadType(ty, al);
      ReadWritten(p, al);
      ReadWritten(e, al);
      assert ReadNth(items, 2, al) == Some(p) && ReadNth(items, 3, al) == Some(e);
    case Let(x, ty, e, rest) =>
      ReadType(ty, al);
      ReadWritten(e, al);
      ReadWrittenStmts(rest, al);
      assert items[4..] == WriteStmts(rest);
      assert ReadNth(items, 3, al) == Some(e);
    case Set(x, e) =>
      ReadWritten(e, al);
      assert ReadNth(items, 2, al) == Some(e);
    case Do(ss) =>
      ReadWrittenStmts(ss, al);
      assert items[1..] == WriteStmts(ss);
    case If(c, t, f) =>
      ReadWritten(c, al);
      ReadWrittenStmt(t, al);
      ReadWrittenStmt(f, al);
      assert ReadNth(items, 1, al) == Some(c);
      assert ReadStmtNth(items, 2, al) == Some(t) && ReadStmtNth(items, 3, al) == Some(f);
    case While(c, b) =>
      ReadWritten(c, al);
      ReadWrittenStmt(b, al);
      assert ReadNth(items, 1, al) == Some(c) && ReadStmtNth(items, 2, al) == Some(b);
    case Eval(e) => ReadWrittenEval(e, al);
  }

  lemma {:induction false} ReadWrittenEval(e: W.Expr, al: Aliases)
    requires StmtWritable(W.Eval(e))
    ensures ReadStmt(WriteExpr(e), al) == Some(W.Eval(e))
  {
    hide ReadExpr, ReadStmts, ReadStmtNth, ReadNth, OpName, WriteNumber;
    ReadWritten(e, al);
    FixedHeads();
    if e.Binary? {
      OpIsNoStmtHead(e.op);
    }
    var items := WriteExpr(e).items;
    assert items[0].Atom? && !IsStmtHead(items[0].text);
  }

  lemma {:induction false} ReadWrittenStmts(ss: seq<W.Stmt>, al: Aliases)
    requires StmtsWritable(ss)
    ensures ReadStmts(WriteStmts(ss), al) == Some(ss)
    decreases ss
  {
    if ss != [] {
      ReadWrittenStmt(ss[0], al);
      ReadWrittenStmts(ss[1..], al);
      assert WriteStmts(ss)[1..] == WriteStmts(ss[1..]);
      assert [ss[0]] + ss[1..] == ss;
    }
  }

  // ---------- functions and programs ----------

  function WriteParams(ps: seq<Entry>): (r: seq<Sexpr>)
    ensures |r| == |ps|
  {
    if ps == [] then [] else [List([Atom(ps[0].name), WriteType(ps[0].ty)])] + WriteParams(ps[1..])
  }

  function WriteFn(fn: W.FnDef): Sexpr {
    List([Atom("fn"), Atom(fn.name), List([Atom("params")] + WriteParams(fn.params)),
          List([Atom("returns"), WriteType(fn.ret)]), List([Atom("body")] + WriteStmts(fn.body)),
          List([Atom("tests"), Atom("none")])])
  }

  function WriteProgram(p: W.Program): (r: seq<Sexpr>)
    ensures |r| == |p|
  {
    if p == [] then [] else WriteProgram(p[..|p| - 1]) + [WriteFn(p[|p| - 1])]
  }

  predicate FnWritable(fn: W.FnDef) {
    fn.name != "" && !IsBuiltin(fn.name) && StmtsWritable(fn.body) &&
    forall k :: 0 <= k < |fn.params| ==> fn.params[k].name != ""
  }

  lemma {:induction false} ReadParams(ps: seq<Entry>, al: Aliases)
    requires forall k :: 0 <= k < |ps| ==> ps[k].name != ""
    ensures HeaderParams(WriteParams(ps), al) == ps
    ensures forall k :: 0 <= k < |ps| ==> Counts(WriteParams(ps)[k], al)
  {
    if ps != [] {
      ReadType(ps[0].ty, al);
      ReadParams(ps[1..], al);
      var fs := WriteParams(ps);
      assert fs[1..] == WriteParams(ps[1..]);
      assert [ps[0]] + ps[1..] == ps;
      forall k | 0 <= k < |ps| ensures Counts(fs[k], al) {
        if k > 0 {
          assert fs[k] == fs[1..][k - 1];
        }
      }
    }
  }

  /** The parts of a written function. */
  lemma {:induction false} WrittenParts(fn: W.FnDef, al: Aliases)
    ensures var f := WriteFn(fn);
            var p := PartsOf(f.items);
            HeadIs(Some(f), "fn") && !HeadIs(Some(f), "entry") && !HeadIs(Some(f), "module") && !HeadIs(Some(f),
              "program") &&
            !HeadIs(Some(f), "type") && NameOf(f) == fn.name && ParamForms(p) == WriteParams(fn.params) &&
            RetOf(p, al) == fn.ret && TestsOk(p.extras) && p.body == Some(f.items[4])
  {
    hide WriteType, WriteStmts, WriteParams, ParseType;
    ReadType(fn.ret, al);
    var items := WriteFn(fn).items;
    assert items[2].items[1..] == WriteParams(fn.params);
    assert items[5..] == [List([Atom("tests"), Atom("none")])];
  }

  lemma {:induction false} ReadWrittenFn(fn: W.FnDef, al: Aliases)
    requires FnWritable(fn)
    ensures IsFnForm(WriteFn(fn)) && ReadFn(WriteFn(fn), al) == Some(fn) && PlainFn(WriteFn(fn), al)
  {
    hide PartsOf, NameOf, ParamForms, RetOf, TestsOk, ReadStmts, HeaderParams, Counts, IsBuiltin;
    var f := WriteFn(fn);
    WrittenParts(fn, al);
    ReadParams(fn.params, al);
    ReadWrittenStmts(fn.body, al);
    assert f.items[4].items[1..] == WriteStmts(fn.body);
  }

  lemma {:induction false} ReadWrittenFns(p: W.Program, al: Aliases)
    requires forall k :: 0 <= k < |p| ==> FnWritable(p[k])
    ensures AllPlain(WriteProgram(p), al) && ReadFns(WriteProgram(p), al) == Some(p)
  {
    hide ReadFn, WriteFn, FnWritable, PlainFn, IsFnForm;
    if p != [] {
      var n := |p| - 1;
      ReadWrittenFns(p[..n], al);
      ReadWrittenFn(p[n], al);
      var fs := WriteProgram(p);
      assert fs[..n] == WriteProgram(p[..n]);
      assert p[..n] + [p[n]] == p;
    }
  }

  /** Function forms without modules around them are taken as they are, and define no type. */
  lemma {:induction false} OnlyFunctions(fs: seq<Sexpr>, al: Aliases)
    requires forall k :: 0 <= k < |fs| ==> IsFnForm(fs[k])
    ensures FnForms(fs) == fs && AliasesOf(fs, al) == al
  {
    if fs != [] {
      OnlyFunctions(fs[1..], al);
      assert IsFnForm(fs[0]);
      assert [fs[0]] + fs[1..] == fs;
    }
  }

  /** Reading inverts writing: every program whose names can be written is read back from
      its forms, which are plainly written. */
  lemma {:induction false} ReadInvertsWriting(p: W.Program)
    requires forall k :: 0 <= k < |p| ==> FnWritable(p[k])
    ensures var fs := WriteProgram(p);
            ReadProgram(fs) == Some(p) && AllPlain(FnForms(fs), AliasesOf(fs, map[]))
  {
    hide FnForms, AliasesOf, ReadFns, FnWritable;
    ReadWrittenFns(p, map[]);
    OnlyFunctions(WriteProgram(p), map[]);
  }
}
