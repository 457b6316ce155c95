/** The whole compiler, from source files to emitted functions (main.c, program.c). */
module EndToEnd {
  import opened Wrappers
  import opened Types
  import opened Values
  import opened Env
  import opened Ir
  import opened Gen
  import opened Scoping
  import opened Correctness
  import opened Sexprs
  import Blocks
  import Simulation
  import I = Includes
  import R = Reading
  import W = Weave

  // ---------- the generator only looks up what is called ----------

  /** `s2` has the signatures of `s1`, and maybe others. */
  ghost predicate Covers(s1: W.Sigs, s2: W.Sigs) {
    forall f :: f in s1 ==> f in s2 && s2[f] == s1[f]
  }

  /** Code of a checked expression: the same with a larger table, and no diagnostic. */
  lemma {:induction false} SameExpr(e: W.Expr, sc: W.Scope, s1: W.Sigs, s2: W.Sigs, temp: nat)
    requires W.ExprOk(e, sc, s1) && Covers(s1, s2)
    ensures GenExpr(e, W.Plain(sc), s1, temp) == GenExpr(e, W.Plain(sc), s2, temp)
    ensures !GenExpr(e, W.Plain(sc), s1, temp).fatal
    decreases e, 1
  {
    hide SsaOf, Find, W.Plain, TypeOf;
    match e
    case Binary(op, lhs, rhs) =>
      SameExpr(lhs, sc, s1, s2, temp);
      SameExpr(rhs, sc, s1, s2, OperandCode(op, GenExpr(lhs, W.Plain(sc), s1, temp)).temp);
      OperatorKnown(e, W.Plain(sc), s1, s2, temp);
    case Deref(ty, p) =>
      SameExpr(p, sc, s1, s2, temp);
      GenType(p, W.Plain(sc), s1, temp);
    case CallFn(f, args) => SameArgs(args, f, 0, sc, s1, s2, temp);
    case Const(_) =>
    case Var(_) =>
    case AddrOf(_) =>
  }

  /** A conversion that the rules allow is one that stage0 makes. */
  lemma {:induction false} ConversionKnown(e: W.Expr, ty: TypeRef, env: seq<Entry>, sigs: W.Sigs, temp: nat)
    requires W.Converts(W.YieldOf(e, env, sigs), ty) && !GenExpr(e, env, sigs, temp).fatal
    ensures !Ensured(GenExpr(e, env, sigs, temp), ty).fatal
  {
    hide GenExpr, W.ExprType;
    GenType(e, env, sigs, temp);
    if W.IsZero(e, env, sigs) {
      GenZero(e, env, sigs, temp);
    }
  }

  lemma {:induction false} OperatorKnown(e: W.Expr, env: seq<Entry>, s1: W.Sigs, s2: W.Sigs, temp: nat)
    requires e.Binary? && W.OperandsOk(e.op, e.lhs, e.rhs, env, s1)
    requires var l := GenExpr(e.lhs, env, s1, temp);
             l == GenExpr(e.lhs, env, s2, temp) && !l.fatal &&
             var r := GenExpr(e.rhs, env, s1, OperandCode(e.op, l).temp);
             r == GenExpr(e.rhs, env, s2, OperandCode(e.op, l).temp) && !r.fatal
    ensures GenExpr(e, env, s1, temp) == GenExpr(e, env, s2, temp) && !GenExpr(e, env, s1, temp).fatal
  {
    hide W.YieldOf, W.Converts, Ensured, GenTail, GenExpr;
    var l0 := GenExpr(e.lhs, env, s1, temp);
    var l := OperandCode(e.op, l0);
    var r0 := GenExpr(e.rhs, env, s1, l.temp);
    var r := OperandCode(e.op, r0);
    BinaryParts(e, env, s1, temp);
    BinaryParts(e, env, s2, temp);
    Simulation.YieldTypes(e.lhs, env, s1);
    Simulation.YieldTypes(e.rhs, env, s1);
    GenType(e.lhs, env, s1, temp);
    GenType(e.rhs, env, s1, l.temp);
    var ty := W.OperandType(e.op, l0.v.ty, r0.v.ty);
    ConversionKnown(e.lhs, ty, env, s1, temp);
    ConversionKnown(e.rhs, ty, env, s1, l.temp);
    TailKnown(e.op, l0, r0, l.v, r.v, r.temp);
  }

  /** Whether a conversion is known depends on the value only. */
  lemma {:induction false} TailKnown(op: W.Operator, l0: GenE, r0: GenE, l: GVal, r: GVal, t: nat)
    requires var ty := W.OperandType(op, l0.v.ty, r0.v.ty);
             !Ensured(l0, ty).fatal && !Ensured(r0, ty).fatal
    requires op.Cmp? ==> l == l0.v && r == r0.v
    ensures !GenTail(op, l, r, t).fatal
  {
  }

  lemma {:induction false} SameArgs(es: seq<W.Expr>, f: string, i: nat, sc: W.Scope, s1: W.Sigs, s2: W.Sigs, temp: nat)
    requires f in s1 && i <= |s1[f].params| && W.ArgsOk(es, s1[f].params[i..], sc, s1) && Covers(s1, s2)
    ensures GenArgs(es, f, i, W.Plain(sc), s1, temp) == GenArgs(es, f, i, W.Plain(sc), s2, temp)
    ensures !GenArgs(es, f, i, W.Plain(sc), s1, temp).fatal
    decreases es, 0
  {
    hide GenExpr, W.ExprOk, W.ExprType, Ensured;
    if es != [] {
      SameExpr(es[0], sc, s1, s2, temp);
      ConversionKnown(es[0], s1[f].params[i], W.Plain(sc), s1, temp);
      assert s1[f].params[i..][1..] == s1[f].params[i + 1..];
      SameArgs(es[1..], f, i + 1, sc, s1, s2, Ensured(GenExpr(es[0], W.Plain(sc), s1, temp), s1[f].params[i]).temp);
    }
  }

  lemma {:induction false} SameTest(c: W.Expr, sc: W.Scope, s1: W.Sigs, s2: W.Sigs, temp: nat, l1: nat, l2: nat)
    requires W.ExprOk(c, sc, s1) && W.Converts(W.YieldOf(c, W.Plain(sc), s1), I32) && Covers(s1, s2)
    ensures GenTest(c, W.Plain(sc), s1, temp, l1, l2) == GenTest(c, W.Plain(sc), s2, temp, l1, l2)
    ensures !GenTest(c, W.Plain(sc), s1, temp, l1, l2).fatal
  {
    hide GenExpr, W.ExprOk, W.YieldOf, W.Converts, Ensured;
    SameExpr(c, sc, s1, s2, temp);
    ConversionKnown(c, I32, W.Plain(sc), s1, temp);
  }

  lemma {:induction false} SameStmt(s: W.Stmt, sc: W.Scope, s1: W.Sigs, s2: W.Sigs, ret: TypeRef, temp: nat, lbl: nat)
    requires W.CheckStmt(s, sc, s1, ret).Some? && Covers(s1, s2)
    ensures GenStmt(s, W.Plain(sc), s1, ret, temp, lbl) == GenStmt(s, W.Plain(sc), s2, ret, temp, lbl)
    ensures !GenStmt(s, W.Plain(sc), s1, ret, temp, lbl).fatal
    decreases s, 1
  {
    hide GenExpr, W.ExprOk, W.ExprType, Ensured, GenTest, SsaOf, Closed, TypeOf, W.Plain, W.Resolves, Covers;
    var env := W.Plain(sc);
    match s
    case Nop =>
    case Return(e) => SameExpr(e, sc, s1, s2, temp);
    case StoreTo(ty, p, e) =>
      SameExpr(p, sc, s1, s2, temp);
      var q := GenExpr(p, env, s1, temp);
      SameExpr(e, sc, s1, s2, q.temp);
      ConversionKnown(e, ty, env, s1, q.temp);
    case Let(x, ty, e, rest) =>
      SameExpr(e, sc, s1, s2, temp);
      PlainPush(sc, Entry(x, ty));
      var g := GenExpr(e, env, s1, temp);
      SameList(rest, sc + [W.Seen(Entry(x, ty), true)], s1, s2, ret, GenInit(g, ty).temp, lbl);
    case Set(x, e) => SameExpr(e, sc, s1, s2, temp);
    case Do(ss) => SameList(ss, sc, s1, s2, ret, temp, lbl);
    case If(c, thn, els) =>
      SameTest(c, sc, s1, s2, temp, lbl, lbl + 1);
      var g := GenTest(c, env, s1, temp, lbl, lbl + 1);
      var t := GenStmt(thn, env, s1, ret, g.temp, lbl + 3);
      SameStmt(thn, sc, s1, s2, ret, g.temp, lbl + 3);
      CheckTracksGen(thn, sc, s1, ret, g.temp, lbl + 3);
      var sc1 := W.CheckStmt(thn, sc, s1, ret).value.sc;
      PlainClose(sc1, |sc|);
      SameStmt(els, W.Close(sc1, |sc|), s1, s2, ret, t.temp, t.lbl);
    case While(c, body) =>
      SameTest(c, sc, s1, s2, temp, lbl + 1, lbl + 2);
      SameStmt(body, sc, s1, s2, ret, GenTest(c, env, s1, temp, lbl + 1, lbl + 2).temp, lbl + 3);
    case Eval(e) => SameExpr(e, sc, s1, s2, temp);
  }

  lemma {:induction false} SameList(ss: seq<W.Stmt>, sc: W.Scope, s1: W.Sigs, s2: W.Sigs, ret: TypeRef, temp: nat,
          lbl: nat)
    requires W.CheckList(ss, sc, s1, ret).Some? && Covers(s1, s2)
    ensures GenList(ss, W.Plain(sc), s1, ret, temp, lbl) == GenList(ss, W.Plain(sc), s2, ret, temp, lbl)
    ensures !GenList(ss, W.Plain(sc), s1, ret, temp, lbl).fatal
    decreases ss, 0
  {
    hide GenStmt, W.CheckStmt, Covers, W.Plain;
    if ss != [] {
      SameStmt(ss[0], sc, s1, s2, ret, temp, lbl);
      CheckTracksGen(ss[0], sc, s1, ret, temp, lbl);
      Blocks.StmtShape(ss[0], W.Plain(sc), s1, ret, temp, lbl);
      var h := GenStmt(ss[0], W.Plain(sc), s1, ret, temp, lbl);
      if !h.exits {
        SameList(ss[1..], W.CheckStmt(ss[0], sc, s1, ret).value.sc, s1, s2, ret, h.temp, h.lbl);
      }
    }
  }

  lemma {:induction false} SameFn(fn: W.FnDef, s1: W.Sigs, s2: W.Sigs, temp: nat, lbl: nat)
    requires W.FnOk(fn, s1) && Covers(s1, s2)
    ensures GenFn(fn, s1, temp, lbl) == GenFn(fn, s2, temp, lbl) && !GenFn(fn, s1, temp, lbl).fatal
  {
    hide GenList, GenHeader, W.CheckList, W.Plain, W.ParamScope, Covers;
    var sc := W.ParamScope(fn.params);
    Simulation.PlainParams(fn.params);
    SameList(fn.body, sc, s1, s2, fn.ret, temp, lbl);
    ListTracksGen(fn.body, sc, s1, fn.ret, temp, lbl);
    Blocks.ListShape(fn.body, fn.params, s1, fn.ret, temp, lbl);
  }

  lemma {:induction false} SameModule(p: W.Program, s1: W.Sigs, s2: W.Sigs, temp: nat, lbl: nat)
    requires Covers(s1, s2) && forall k :: 0 <= k < |p| ==> W.FnOk(p[k], s1)
    ensures GenModule(p, s1, temp, lbl) == GenModule(p, s2, temp, lbl) && !GenModule(p, s1, temp, lbl).fatal
  {
    hide GenFn, W.FnOk, Covers;
    if p != [] {
      SameFn(p[0], s1, s2, temp, lbl);
      var f := GenFn(p[0], s1, temp, lbl);
      SameModule(p[1..], s1, s2, f.temp, f.lbl);
    }
  }

  // ---------- the compiler ----------

  /** compute_base_dir */
  function BaseDir(path: string): string {
    if I.DirName(path) == "" then "." else I.DirName(path)
  }

  /** The forms of an input file with its includes merged; none if a file is missing, does
      not parse or an include is not found. */
  function SourceForms(d: I.Disk, path: string): Option<seq<Sexpr>> {
    match I.Load(d, path)
    case None => None
    case Some(forms) =>
      match I.Walk(d, forms, [], BaseDir(path))
      case None => None
      case Some(w) => Some(I.All(w))
  }

  /** compile_to_llvm_ir on the merged forms; none if the compiler stops with a diagnostic
      or the program uses forms that are not modelled. */
  function Compile(forms: seq<Sexpr>): Option<Module> {
    match R.ReadProgram(forms)
    case None => None
    case Some(p) =>
      var g := GenModule(p, R.Table(forms), 0, 0);
      if g.fatal then None else Some(g.m)
  }

  /** A program written plainly and obeying the rules compiles without a diagnostic, and
      what is emitted for a function does what its source says: it returns the same values,
      gets stuck on the same arguments, and otherwise runs forever. */
  lemma {:induction false} CompilerIsCorrect(forms: seq<Sexpr>, f: string, args: seq<Value>, mem: Memory, v: Value,
          mem': Memory)
    requires R.ReadProgram(forms).Some? && W.ProgramOk(R.ReadProgram(forms).value)
    requires R.AllPlain(R.FnForms(forms), R.AliasesOf(forms, map[]))
    requires W.FindDef(R.ReadProgram(forms).value, f).Some?
    requires W.FitAll(args, W.EntryTypes(W.FindDef(R.ReadProgram(forms).value, f).value.params))
    ensures Compile(forms).Some? && FindFn(Compile(forms).value, f).Some?
    ensures var p := R.ReadProgram(forms).value;
            var fn := W.FindDef(p, f).value;
            var m := Compile(forms).value;
            var start := Enter(FindFn(m, f).value, args, [], mem);
            (SourceReturns(p, fn, args, mem, v, mem') <==> Reaches(m, start, Done(v, mem'))) &&
            (SourceStuck(p, fn, args, mem) <==> Reaches(m, start, Wrong))
  {
    hide R.ReadProgram, R.Table, W.FnOk, W.SigsOf, GenModule, R.AllPlain, R.FnForms, R.AliasesOf, W.FindDef, W.FitAll,
      W.EntryTypes, SourceReturns, SourceStuck, Reaches, Enter;
    var p := R.ReadProgram(forms).value;
    R.TableAgrees(forms);
    SameModule(p, W.SigsOf(p), R.Table(forms), 0, 0);
    CompilePreservesMeaning(p, 0, 0, f, args, mem, v, mem');
  }
}
