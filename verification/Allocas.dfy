/** Allocas keep their types in every function, also in those that break the rules of `Weave`. */
module Allocas {
  import opened Wrappers
  import opened Types
  import opened Env
  import opened Ir
  import opened Gen
  import Linking
  import W = Weave

  /** `s` is the alloca of a variable of type `ty`. */
  ghost predicate Holds(env: seq<Entry>, s: string, ty: TypeRef) {
    exists k :: 0 <= k < |env| && s == SsaName(env[k].name, k) && ty == env[k].ty
  }

  /** Not the name of any alloca. */
  predicate Raw(s: string) {
    !("v_" <= s)
  }

  /** A pointer operand is no alloca, or is spelled as a pointer to what the alloca holds. */
  ghost predicate Points(o: Operand, pty: TypeRef, env: seq<Entry>) {
    o.Slot? && !Raw(o.slot) ==> pty.Ptr? && Holds(env, o.slot, pty.pointee)
  }

  ghost predicate Sound(i: Instr, env: seq<Entry>) {
    match i
    case Alloca(s, ty) => Holds(env, s, ty)
    case Load(_, _, pty, p) => Points(p, pty, env)
    case Store(_, _, pty, p) => Points(p, pty, env)
    case _ => true
  }

  ghost predicate AllSound(code: seq<Instr>, env: seq<Entry>) {
    forall i :: i in code ==> Sound(i, env)
  }

  /** No `set` names a variable like an alloca: of a name that is not declared the C code
      makes the operand. */
  predicate SetsRaw(s: W.Stmt) {
    match s
    case Set(x, _) => Raw(x)
    case Let(_, _, _, rest) => AllSetsRaw(rest)
    case Do(ss) => AllSetsRaw(ss)
    case If(_, thn, els) => SetsRaw(thn) && SetsRaw(els)
    case While(_, body) => SetsRaw(body)
    case _ => true
  }

  predicate AllSetsRaw(ss: seq<W.Stmt>) {
    ss == [] || (SetsRaw(ss[0]) && AllSetsRaw(ss[1..]))
  }

  lemma {:induction false} PointsLater(o: Operand, pty: TypeRef, a: seq<Entry>, b: seq<Entry>)
    requires Points(o, pty, a) && a <= b
    ensures Points(o, pty, b)
  {
    hide SsaName;
    if o.Slot? && !Raw(o.slot) {
      var k :| 0 <= k < |a| && o.slot == SsaName(a[k].name, k) && pty.pointee == a[k].ty;
      assert b[k] == a[k];
    }
  }

  lemma {:induction false} SoundLater(code: seq<Instr>, a: seq<Entry>, b: seq<Entry>)
    requires AllSound(code, a) && a <= b
    ensures AllSound(code, b)
  {
    hide SsaName;
    forall i | i in code ensures Sound(i, b) {
      assert Sound(i, a);
      match i
      case Alloca(s, ty) =>
        var k :| 0 <= k < |a| && s == SsaName(a[k].name, k) && ty == a[k].ty;
        assert b[k] == a[k];
      case Load(_, _, pty, p) => PointsLater(p, pty, a, b);
      case Store(_, _, pty, p) => PointsLater(p, pty, a, b);
      case _ =>
    }
  }

  lemma {:induction false} VariableHolds(env: seq<Entry>, x: string)
    requires TypeOf(env, x).Some?
    ensures Holds(env, SsaOf(env, x), TypeOf(env, x).value)
  {
    hide SsaName;
    FindIsLast(env, x);
  }

  // ---------- expressions ----------

  ghost predicate SoundE(g: GenE, env: seq<Entry>) {
    AllSound(g.code, env) && Points(g.v.op, g.v.ty, env)
  }

  lemma {:induction false} SoundEnsured(g: GenE, ty: TypeRef, env: seq<Entry>)
    requires SoundE(g, env)
    ensures SoundE(Ensured(g, ty), env)
  {
    hide Holds;
  }

  lemma {:induction false} SoundExpr(e: W.Expr, env: seq<Entry>, sigs: W.Sigs, temp: nat)
    ensures SoundE(GenExpr(e, env, sigs, temp), env)
    decreases e, 1
  {
    hide Holds, SsaOf, TypeOf;
    match e
    case Const(_) =>
    case Var(x) => if TypeOf(env, x).Some? { VariableHolds(env, x); }
    case AddrOf(x) => if TypeOf(env, x).Some? { VariableHolds(env, x); }
    case Deref(_, p) => SoundExpr(p, env, sigs, temp);
    case Binary(op, lhs, rhs) =>
      var l0 := GenExpr(lhs, env, sigs, temp);
      SoundExpr(lhs, env, sigs, temp);
      SoundEnsured(l0, I32, env);
      var l := OperandCode(op, l0);
      SoundExpr(rhs, env, sigs, l.temp);
      SoundEnsured(GenExpr(rhs, env, sigs, l.temp), I32, env);
      BinaryParts(e, env, sigs, temp);
      SoundTail(op, l.v, OperandCode(op, GenExpr(rhs, env, sigs, l.temp)).v,
        OperandCode(op, GenExpr(rhs, env, sigs, l.temp)).temp, env);
    case CallFn(f, args) => SoundArgs(args, f, 0, env, sigs, temp);
  }

  lemma {:induction false} SoundTail(op: W.Operator, l: GVal, r: GVal, t: nat, env: seq<Entry>)
    ensures SoundE(GenTail(op, l, r, t), env)
  {
    hide Holds, Raw;
    if op.Cmp? {
      var ty := W.OperandType(op, l.ty, r.ty);
      Converted(l, ty, t + 2, env);
      Converted(r, ty, Ensure(l, ty, t + 2).temp, env);
    }
  }

  lemma {:induction false} Converted(v: GVal, ty: TypeRef, temp: nat, env: seq<Entry>)
    ensures AllSound(Ensure(v, ty, temp).code, env)
  {
  }

  lemma {:induction false} SoundArgs(es: seq<W.Expr>, f: string, i: nat, env: seq<Entry>, sigs: W.Sigs, temp: nat)
    ensures AllSound(GenArgs(es, f, i, env, sigs, temp).code, env)
    decreases es, 0
  {
    hide Sound, Points, Ensured, ParamType;
    if es != [] {
      SoundExpr(es[0], env, sigs, temp);
      SoundEnsured(GenExpr(es[0], env, sigs, temp), ParamType(sigs, f, i), env);
      SoundArgs(es[1..], f, i + 1, env, sigs, Ensured(GenExpr(es[0], env, sigs, temp), ParamType(sigs, f, i)).temp);
    }
  }

  // ---------- statements ----------

  ghost predicate SoundS(g: GenS, env: seq<Entry>) {
    env <= g.env && AllSound(g.code, g.env)
  }

  lemma {:induction false} SoundTest(c: W.Expr, env: seq<Entry>, sigs: W.Sigs, temp: nat, l1: nat, l2: nat)
    ensures AllSound(GenTest(c, env, sigs, temp, l1, l2).code, env)
  {
    hide Points, Ensured, GenExpr;
    SoundExpr(c, env, sigs, temp);
    SoundEnsured(GenExpr(c, env, sigs, temp), I32, env);
  }

  lemma {:induction false} SoundStmt(s: W.Stmt, env: seq<Entry>, sigs: W.Sigs, ret: TypeRef, temp: nat, lbl: nat)
    requires SetsRaw(s)
    ensures SoundS(GenStmt(s, env, sigs, ret, temp, lbl), env)
    decreases s, 1
  {
    hide Holds, SsaOf, Find, GenTest, GenExpr, Ensured, SsaName;
    match s
    case Nop =>
    case Return(e) => SoundExpr(e, env, sigs, temp);
    case StoreTo(ty, p, e) =>
      var q := GenExpr(p, env, sigs, temp);
      SoundExpr(p, env, sigs, temp);
      SoundExpr(e, env, sigs, q.temp);
      SoundEnsured(GenExpr(e, env, sigs, q.temp), ty, env);
    case Let(_, _, _, _) => SoundLet(s, env, sigs, ret, temp, lbl);
    case Set(x, e) =>
      SoundExpr(e, env, sigs, temp);
      SetPoints(env, x);
    case Do(ss) => SoundList(ss, env, sigs, ret, temp, lbl);
    case If(_, _, _) => SoundIf(s, env, sigs, ret, temp, lbl);
    case While(_, _) => SoundWhile(s, env, sigs, ret, temp, lbl);
    case Eval(e) => SoundExpr(e, env, sigs, temp);
  }

  lemma {:induction false} SoundIf(s: W.Stmt, env: seq<Entry>, sigs: W.Sigs, ret: TypeRef, temp: nat, lbl: nat)
    requires s.If? && SetsRaw(s)
    ensures SoundS(GenStmt(s, env, sigs, ret, temp, lbl), env)
    decreases s, 0
  {
    hide Points, Holds, GenTest, GenStmt;
    var q := GenTest(s.cond, env, sigs, temp, lbl, lbl + 1);
    IfCode(s, env, sigs, ret, temp, lbl);
    SoundTest(s.cond, env, sigs, temp, lbl, lbl + 1);
    var t := GenStmt(s.thn, env, sigs, ret, q.temp, lbl + 3);
    SoundStmt(s.thn, env, sigs, ret, q.temp, lbl + 3);
    SoundStmt(s.els, t.env, sigs, ret, t.temp, t.lbl);
    var f := GenStmt(s.els, t.env, sigs, ret, t.temp, t.lbl);
    SoundLater(q.code, env, f.env);
    SoundLater(t.code, t.env, f.env);
  }

  lemma {:induction false} SoundWhile(s: W.Stmt, env: seq<Entry>, sigs: W.Sigs, ret: TypeRef, temp: nat, lbl: nat)
    requires s.While? && SetsRaw(s)
    ensures SoundS(GenStmt(s, env, sigs, ret, temp, lbl), env)
    decreases s, 0
  {
    hide Points, Holds, GenTest, GenStmt;
    var q := GenTest(s.cond, env, sigs, temp, lbl + 1, lbl + 2);
    WhileParts(s, env, sigs, ret, temp, lbl);
    SoundTest(s.cond, env, sigs, temp, lbl + 1, lbl + 2);
    SoundStmt(s.body, env, sigs, ret, q.temp, lbl + 3);
    SoundLater(q.code, env, GenStmt(s.body, env, sigs, ret, q.temp, lbl + 3).env);
  }

  lemma {:induction false} SetPoints(env: seq<Entry>, x: string)
    requires Raw(x)
    ensures var ty := (match TypeOf(env, x) case None => I32 case Some(t) => t);
            Points(Slot(SsaOf(env, x)), Ptr(ty), env)
  {
    hide SsaName;
    if TypeOf(env, x).Some? {
      VariableHolds(env, x);
    }
  }

  lemma {:induction false} SoundLet(s: W.Stmt, env: seq<Entry>, sigs: W.Sigs, ret: TypeRef, temp: nat, lbl: nat)
    requires s.Let? && AllSetsRaw(s.rest)
    ensures SoundS(GenStmt(s, env, sigs, ret, temp, lbl), env)
    decreases s, 0
  {
    hide Holds, SsaOf, GenExpr, GenList, SsaName;
    var env' := env + [Entry(s.x, s.ty)];
    var g := GenExpr(s.e, env, sigs, temp);
    var i := GenInit(g, s.ty);
    SoundExpr(s.e, env, sigs, temp);
    FindIsLast(env', s.x);
    VariableHolds(env', s.x);
    PointsLater(g.v.op, g.v.ty, env, env');
    var here := [Alloca(SsaOf(env', s.x), s.ty)] + i.code + [StoreSlot(s.ty, i.v.op, SsaOf(env', s.x))];
    assert AllSound(here, env');
    SoundList(s.rest, env', sigs, ret, i.temp, lbl);
    var r := GenList(s.rest, env', sigs, ret, i.temp, lbl);
    SoundLater(g.code, env, r.env);
    SoundLater(here, env', r.env);
    assert g.code + [Alloca(SsaOf(env', s.x), s.ty)] + i.code + [StoreSlot(s.ty, i.v.op, SsaOf(env', s.x))] + r.code
        == g.code + here + r.code;
  }

  lemma {:induction false} SoundList(ss: seq<W.Stmt>, env: seq<Entry>, sigs: W.Sigs, ret: TypeRef, temp: nat, lbl: nat)
    requires AllSetsRaw(ss)
    ensures SoundS(GenList(ss, env, sigs, ret, temp, lbl), env)
    decreases ss, 0
  {
    hide Sound, GenStmt;
    if ss != [] {
      var h := GenStmt(ss[0], env, sigs, ret, temp, lbl);
      SoundStmt(ss[0], env, sigs, ret, temp, lbl);
      if !h.exits {
        SoundList(ss[1..], h.env, sigs, ret, h.temp, h.lbl);
        SoundLater(h.code, h.env, GenList(ss[1..], h.env, sigs, ret, h.temp, h.lbl).env);
      }
    }
  }

  // ---------- functions ----------

  lemma {:induction false} SoundHeader(ps: seq<Entry>, k: nat)
    requires Linking.DistinctNames(ps) && k <= |ps|
    ensures AllSound(GenHeader(ps[..k], ps), ps)
  {
    hide SsaOf, SsaName;
    if k > 0 {
      assert ps[..k][..k - 1] == ps[..k - 1];
      SoundHeader(ps, k - 1);
      Linking.FindDistinct(ps, k - 1);
    }
  }

  /** In every function with distinct parameters whose `set`s do not spell allocas: what a load
      or store goes through is spelled as a pointer to what its alloca holds. */
  lemma {:induction false} AllocasAgree(fn: W.FnDef, sigs: W.Sigs, temp: nat, lbl: nat, i: Instr, j: Instr)
    requires Linking.DistinctNames(fn.params) && AllSetsRaw(fn.body)
    requires var code := GenFn(fn, sigs, temp, lbl).fn.code; i in code && j in code
    requires i.Alloca?
    ensures j.Load? && j.p == Slot(i.slot) ==> j.pty == Ptr(i.ty)
    ensures j.Store? && j.p == Slot(i.slot) ==> j.pty == Ptr(i.ty)
    ensures j.Alloca? && j.slot == i.slot ==> j.ty == i.ty
  {
    hide GenList, GenHeader, GenEnd, SsaName, SsaOf, AllSetsRaw;
    var b := GenList(fn.body, fn.params, sigs, fn.ret, temp, lbl);
    var e := if b.exits then GenE([], ZERO, b.temp, false) else GenEnd(b.last, fn.ret, b.temp);
    var env := b.env;
    SoundList(fn.body, fn.params, sigs, fn.ret, temp, lbl);
    SoundHeader(fn.params, |fn.params|);
    assert fn.params[..|fn.params|] == fn.params;
    SoundLater(GenHeader(fn.params, fn.params), fn.params, env);
    SoundEnd(b.last, fn.ret, b.temp, env);
    assert Sound(i, env) && Sound(j, env);
    var k :| 0 <= k < |env| && i.slot == SsaName(env[k].name, k) && i.ty == env[k].ty;
    NotRaw(env[k].name, k);
    forall ty | Holds(env, i.slot, ty) ensures ty == i.ty {
      var n :| 0 <= n < |env| && i.slot == SsaName(env[n].name, n) && ty == env[n].ty;
      SsaNamesDistinct(env[k].name, k, env[n].name, n);
    }
  }

  lemma {:induction false} SoundEnd(last: Option<GVal>, ret: TypeRef, temp: nat, env: seq<Entry>)
    ensures AllSound(GenEnd(last, ret, temp).code, env)
  {
  }

  lemma {:induction false} NotRaw(x: string, k: nat)
    ensures !Raw(SsaName(x, k))
  {
  }

  /** A `set` that spells the alloca of a parameter stores a number through it, whatever its type. */
  lemma {:induction false} SpelledAllocaDisagrees(f: string, x: string, ty: TypeRef, sigs: W.Sigs, temp: nat, lbl: nat)
    requires ty != I32
    ensures var ssa := SsaName(x, 0);
            var code := GenFn(W.FnDef(f, [Entry(x, ty)], I32, [W.Set(ssa, W.Const(0))]), sigs, temp, lbl).fn.code;
            Alloca(ssa, ty) in code && Store(I32, Const(0), Ptr(I32), Slot(ssa)) in code
  {
    hide SsaName, GenHeader;
    var ssa := SsaName(x, 0);
    var ps := [Entry(x, ty)];
    SsaIsLonger(x, 0);
    FindIsLast(ps, x);
    FindIsLast(ps, ssa);
    var stmt := W.Set(ssa, W.Const(0));
    assert GenStmt(stmt, ps, sigs, I32, temp, lbl).code == [] + [StoreSlot(I32, Const(0), ssa)];
    assert StoreSlot(I32, Const(0), ssa) in GenList([stmt], ps, sigs, I32, temp, lbl).code;
    OneHeader(ps, x);
  }

  lemma {:induction false} OneHeader(ps: seq<Entry>, x: string)
    requires |ps| == 1 && ps[0].name == x
    ensures Alloca(SsaOf(ps, x), ps[0].ty) in GenHeader(ps, ps)
  {
  }

  lemma {:induction false} SsaIsLonger(x: string, i: nat)
    ensures |SsaName(x, i)| > |x|
  {
  }
}
