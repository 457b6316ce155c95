/** The imperative generator of stage0 (ir.c, expr.c, stmt.c, program.c): it appends to the
    output, bumps the counters and extends the environment in place.  Every method is
    proved to emit exactly what `Gen` says. */
module Codegen {
  import opened Wrappers
  import opened Types
  import opened Env
  import opened Ir
  import opened Gen
  import opened FnTables
  import W = Weave

  class IrCtx {
    var out: seq<Instr>
    var temp: nat
    var lbl: nat
    var fatal: bool
    const fns: FnTable

    constructor (table: FnTable)
      ensures out == [] && temp == 0 && lbl == 0 && !fatal && fns == table
    {
      out, temp, lbl, fatal, fns := [], 0, 0, false, table;
    }

    /** ir_fresh_temp */
    method FreshTemp() returns (t: nat)
      modifies this`temp
      ensures t == old(temp) && temp == t + 1
    {
      t := temp;
      temp := temp + 1;
    }

    /** ir_fresh_label */
    method FreshLabel() returns (l: nat)
      modifies this`lbl
      ensures l == old(lbl) && lbl == l + 1
    {
      l := lbl;
      lbl := lbl + 1;
    }

    method Emit(i: Instr)
      modifies this`out
      ensures out == old(out) + [i]
    {
      out := out + [i];
    }

    method Fatal()
      modifies this`fatal
      ensures fatal
    {
      fatal := true;
    }

    /** The context is what it was at `out0`/`fatal0` plus the result `g`. */
    ghost predicate Grown(out0: seq<Instr>, fatal0: bool, g: GenE)
      reads this
    {
      out == out0 + g.code && temp == g.temp && fatal == (fatal0 || g.fatal)
    }
  }

  method EnsureType(ir: IrCtx, v: GVal, target: TypeRef) returns (r: GVal)
    modifies ir`out, ir`temp, ir`fatal
    ensures var g := Ensure(v, target, old(ir.temp)); r == g.v && ir.Grown(old(ir.out), old(ir.fatal), g)
  {
    r := v;
    if v.ty == target {
      return;
    }
    if target.I8Ptr? && v == ZERO {
      var t := ir.FreshTemp();
      ir.Emit(NullToPtr(t));
      return GVal(I8Ptr, Temp(t));
    }
    if target.I8Ptr? && v.ty.Ptr? {
      var t := ir.FreshTemp();
      ir.Emit(BitcastI8(t, v.ty, v.op));
      return GVal(I8Ptr, Temp(t));
    }
    if target.I32? && (v.ty.Ptr? || v.ty.I8Ptr?) {
      var t := ir.FreshTemp();
      ir.Emit(PtrToInt(t, v.ty, v.op));
      return GVal(I32, Temp(t));
    }
    ir.Fatal();
    return ZERO;
  }

  lemma {:induction false} Cat2(o: seq<Instr>, a: seq<Instr>, b: seq<Instr>)
    ensures (o + a) + b == o + (a + b)
  {
  }

  lemma {:induction false} Cat3(o: seq<Instr>, a: seq<Instr>, b: seq<Instr>, c: seq<Instr>)
    ensures ((o + a) + b) + c == o + (a + b + c)
  {
  }

  lemma {:induction false} Cat4(o: seq<Instr>, a: seq<Instr>, b: seq<Instr>, c: seq<Instr>, d: seq<Instr>)
    ensures (((o + a) + b) + c) + d == o + (a + b + c + d)
  {
  }

  /** An expression converted to a type. */
  method CgEnsured(ir: IrCtx, env: VarEnv, e: W.Expr, target: TypeRef) returns (v: GVal)
    requires env.Valid() && ir.fns.Valid()
    modifies ir`out, ir`temp, ir`fatal
    ensures var g := Ensured(GenExpr(e, env.entries, ir.fns.sigs, old(ir.temp)), target);
            v == g.v && ir.Grown(old(ir.out), old(ir.fatal), g)
    decreases e, 2
  {
    hide GenExpr, Ensure;
    v := CgExpr(ir, env, e);
    ghost var g := GenExpr(e, env.entries, ir.fns.sigs, old(ir.temp));
    Cat2(old(ir.out), g.code, Ensure(g.v, target, g.temp).code);
    v := EnsureType(ir, v, target);
  }

  method CgExpr(ir: IrCtx, env: VarEnv, e: W.Expr) returns (v: GVal)
    requires env.Valid() && ir.fns.Valid()
    modifies ir`out, ir`temp, ir`fatal
    ensures var g := GenExpr(e, env.entries, ir.fns.sigs, old(ir.temp));
            v == g.v && ir.Grown(old(ir.out), old(ir.fatal), g)
    decreases e, 1
  {
    hide GenExpr, GenBinary;
    match e
    case Const(_) => v := CgLeaf(ir, env, e);
    case Var(_) => v := CgLeaf(ir, env, e);
    case AddrOf(_) => v := CgLeaf(ir, env, e);
    case Deref(_, _) => v := CgLoad(ir, env, e);
    case CallFn(_, _) => v := CgCall(ir, env, e);
    case Binary(op, _, _) =>
      BinaryIs(e, env.entries, ir.fns.sigs, ir.temp);
      match op {
        case Arith(o) => v := CgArith(ir, env, e, o);
        case Cmp(o) => v := CgCmp(ir, env, e, o);
        case Logic(o) => v := CgLogic(ir, env, e, o);
      }
  }

  lemma {:induction false} BinaryIs(e: W.Expr, env: seq<Entry>, sigs: W.Sigs, temp: nat)
    requires e.Binary?
    ensures GenExpr(e, env, sigs, temp) == GenBinary(e, env, sigs, temp)
  {
  }

  /** The atom part of cg_expr, and cg_addr. */
  method CgLeaf(ir: IrCtx, env: VarEnv, e: W.Expr) returns (v: GVal)
    requires env.Valid() && ir.fns.Valid() && (e.Const? || e.Var? || e.AddrOf?)
    modifies ir`out, ir`temp
    ensures var g := GenExpr(e, env.entries, ir.fns.sigs, old(ir.temp));
            v == g.v && ir.Grown(old(ir.out), old(ir.fatal), g)
  {
    hide SsaOf, TypeOf;
    if e.Const? {
      return GVal(I32, Const(e.n));
    }
    var ty := env.TypeOfName(e.x);
    if ty.None? {
      return ZERO;
    }
    var ssa := env.Ssa(e.x);
    if e.AddrOf? {
      return GVal(Ptr(ty.value), Slot(ssa));
    }
    var t := ir.FreshTemp();
    ir.Emit(Load(t, ty.value, Ptr(ty.value), Slot(ssa)));
    v := GVal(ty.value, Temp(t));
  }

  /** cg_load */
  method CgLoad(ir: IrCtx, env: VarEnv, e: W.Expr) returns (v: GVal)
    requires env.Valid() && ir.fns.Valid() && e.Deref?
    modifies ir`out, ir`temp, ir`fatal
    ensures var g := GenExpr(e, env.entries, ir.fns.sigs, old(ir.temp));
            v == g.v && ir.Grown(old(ir.out), old(ir.fatal), g)
    decreases e, 0
  {
    ghost var g := GenExpr(e.p, env.entries, ir.fns.sigs, ir.temp);
    var q := CgExpr(ir, env, e.p);
    if !q.ty.Ptr? {
      ir.Fatal();
    }
    var t := ir.FreshTemp();
    ir.Emit(Load(t, e.ty, q.ty, q.op));
    Cat2(old(ir.out), g.code, [Load(t, e.ty, q.ty, q.op)]);
    v := GVal(e.ty, Temp(t));
  }

  method CgArith(ir: IrCtx, env: VarEnv, e: W.Expr, o: W.ArithOp) returns (v: GVal)
    requires env.Valid() && ir.fns.Valid() && e.Binary? && e.op == W.Arith(o)
    modifies ir`out, ir`temp, ir`fatal
    ensures var g := GenBinary(e, env.entries, ir.fns.sigs, old(ir.temp));
            v == g.v && ir.Grown(old(ir.out), old(ir.fatal), g)
    decreases e, 0
  {
    hide GenExpr, Ensured;
    var l := CgEnsured(ir, env, e.lhs, I32);
    ghost var gl := Ensured(GenExpr(e.lhs, env.entries, ir.fns.sigs, old(ir.temp)), I32);
    var r := CgEnsured(ir, env, e.rhs, I32);
    ghost var gr := Ensured(GenExpr(e.rhs, env.entries, ir.fns.sigs, gl.temp), I32);
    var t := ir.FreshTemp();
    Cat3(old(ir.out), gl.code, gr.code, [Bin(t, BinOpOf(o), l.op, r.op)]);
    ir.Emit(Bin(t, BinOpOf(o), l.op, r.op));
    v := GVal(I32, Temp(t));
  }

  method CgCmp(ir: IrCtx, env: VarEnv, e: W.Expr, o: W.CmpOp) returns (v: GVal)
    requires env.Valid() && ir.fns.Valid() && e.Binary? && e.op == W.Cmp(o)
    modifies ir`out, ir`temp, ir`fatal
    ensures var g := GenBinary(e, env.entries, ir.fns.sigs, old(ir.temp));
            v == g.v && ir.Grown(old(ir.out), old(ir.fatal), g)
    decreases e, 0
  {
    hide GenExpr, Ensured, GenCmp;
    var l := CgExpr(ir, env, e.lhs);
    ghost var gl := GenExpr(e.lhs, env.entries, ir.fns.sigs, old(ir.temp));
    var r := CgExpr(ir, env, e.rhs);
    ghost var gr := GenExpr(e.rhs, env.entries, ir.fns.sigs, gl.temp);
    Cat3(old(ir.out), gl.code, gr.code, GenCmp(o, l, r, gr.temp).code);
    v := CgCompare(ir, o, l, r);
  }

  lemma {:induction false} CatTail(o: seq<Instr>, a: seq<Instr>, b: seq<Instr>, i: Instr, j: Instr)
    ensures o + a + b + [i] + [j] == o + (a + b + [i, j])
  {
  }

  /** cg_cmp after its operands. */
  method CgCompare(ir: IrCtx, o: W.CmpOp, l: GVal, r: GVal) returns (v: GVal)
    modifies ir`out, ir`temp, ir`fatal
    ensures var g := GenCmp(o, l, r, old(ir.temp)); v == g.v && ir.Grown(old(ir.out), old(ir.fatal), g)
  {
    hide Ensure, W.IsPtr, PredOf;
    var tcmp := ir.FreshTemp();
    var tout := ir.FreshTemp();
    var ty := if (o.Equal? || o.NotEqual?) && (W.IsPtr(l.ty) || W.IsPtr(r.ty)) then I8Ptr else I32;
    ghost var gl := Ensure(l, ty, ir.temp);
    ghost var gr := Ensure(r, ty, gl.temp);
    var a := EnsureType(ir, l, ty);
    var b := EnsureType(ir, r, ty);
    var i, z := Icmp(tcmp, PredOf(o), ty, a.op, b.op), Zext(tout, Temp(tcmp));
    ir.Emit(i);
    ir.Emit(z);
    CatTail(old(ir.out), gl.code, gr.code, i, z);
    v := GVal(I32, Temp(tout));
  }

  method CgLogic(ir: IrCtx, env: VarEnv, e: W.Expr, o: W.LogicOp) returns (v: GVal)
    requires env.Valid() && ir.fns.Valid() && e.Binary? && e.op == W.Logic(o)
    modifies ir`out, ir`temp, ir`fatal
    ensures var g := GenBinary(e, env.entries, ir.fns.sigs, old(ir.temp));
            v == g.v && ir.Grown(old(ir.out), old(ir.fatal), g)
    decreases e, 0
  {
    hide GenExpr, Ensured;
    var l := CgEnsured(ir, env, e.lhs, I32);
    ghost var gl := Ensured(GenExpr(e.lhs, env.entries, ir.fns.sigs, old(ir.temp)), I32);
    var r := CgEnsured(ir, env, e.rhs, I32);
    ghost var gr := Ensured(GenExpr(e.rhs, env.entries, ir.fns.sigs, gl.temp), I32);
    Cat3(old(ir.out), gl.code, gr.code, GenTail(e.op, l, r, gr.temp).code);
    v := EmitLogic(ir, o, l, r);
  }

  /** The two tests, the strict connective and the widening of cg_logic. */
  method EmitLogic(ir: IrCtx, o: W.LogicOp, l: GVal, r: GVal) returns (v: GVal)
    modifies ir`out, ir`temp
    ensures var g := GenTail(W.Logic(o), l, r, old(ir.temp));
            v == g.v && ir.out == old(ir.out) + g.code && ir.temp == g.temp
  {
    var b1 := ir.FreshTemp();
    var b2 := ir.FreshTemp();
    var b3 := ir.FreshTemp();
    var t := ir.FreshTemp();
    ghost var code := GenTail(W.Logic(o), l, r, old(ir.temp)).code;
    ir.Emit(Icmp(b1, Ne, I32, l.op, Const(0)));
    ir.Emit(Icmp(b2, Ne, I32, r.op, Const(0)));
    ir.Emit(BoolOp(b3, BoolOpOf(o), Temp(b1), Temp(b2)));
    ir.Emit(Zext(t, Temp(b3)));
    Cat4(old(ir.out), [code[0]], [code[1]], [code[2]], [code[3]]);
    assert [code[0]] + [code[1]] + [code[2]] + [code[3]] == code;
    v := GVal(I32, Temp(t));
  }

  /** The ordinary-call part of cg_call: the argument loop, then one call. */
  method CgCall(ir: IrCtx, env: VarEnv, e: W.Expr) returns (v: GVal)
    requires env.Valid() && ir.fns.Valid() && e.CallFn?
    modifies ir`out, ir`temp, ir`fatal
    ensures var g := GenExpr(e, env.entries, ir.fns.sigs, old(ir.temp));
            v == g.v && ir.Grown(old(ir.out), old(ir.fatal), g)
    decreases e, 0
  {
    hide GenArgs, RetType;
    ghost var a := GenArgs(e.args, e.f, 0, env.entries, ir.fns.sigs, ir.temp);
    var ret := ir.fns.RetTypeOf(e.f);
    var args := CgArgs(ir, env, e.f, e.args);
    if ret.Void? {
      ir.Emit(Call(None, Void, e.f, args));
      Cat2(old(ir.out), a.code, [Call(None, Void, e.f, args)]);
      v := ZERO;
    } else {
      var t := ir.FreshTemp();
      ir.Emit(Call(Some(t), ret, e.f, args));
      Cat2(old(ir.out), a.code, [Call(Some(t), ret, e.f, args)]);
      v := GVal(ret, Temp(t));
    }
  }

  method CgArgs(ir: IrCtx, env: VarEnv, f: string, es: seq<W.Expr>) returns (args: seq<Arg>)
    requires env.Valid() && ir.fns.Valid()
    modifies ir`out, ir`temp, ir`fatal
    ensures var g := GenArgs(es, f, 0, env.entries, ir.fns.sigs, old(ir.temp));
            args == g.args && ir.out == old(ir.out) + g.code && ir.temp == g.temp &&
            ir.fatal == (old(ir.fatal) || g.fatal)
    decreases es, 3
  {
    hide GenExpr, Ensured, ParamType;
    ghost var all := GenArgs(es, f, 0, env.entries, ir.fns.sigs, ir.temp);
    ghost var done: seq<Instr> := [];
    args := [];
    assert es[0..] == es;
    for i := 0 to |es|
      invariant ir.out == old(ir.out) + done
      invariant var rest := GenArgs(es[i..], f, i, env.entries, ir.fns.sigs, ir.temp);
                all.args == args + rest.args && all.code == done + rest.code &&
                all.temp == rest.temp && (old(ir.fatal) || all.fatal) == (ir.fatal || rest.fatal)
    {
      ghost var rest := GenArgs(es[i..], f, i, env.entries, ir.fns.sigs, ir.temp);
      assert es[i..][0] == es[i] && es[i..][1..] == es[i + 1..];
      var ty := ir.fns.ParamTypeOf(f, i);
      ghost var h := Ensured(GenExpr(es[i], env.entries, ir.fns.sigs, ir.temp), ty);
      var a := CgEnsured(ir, env, es[i], ty);
      ghost var t := GenArgs(es[i + 1..], f, i + 1, env.entries, ir.fns.sigs, ir.temp);
      Cat2(old(ir.out), done, h.code);
      Cat2(done, h.code, t.code);
      CatArgs(args, Arg(ty, a.op), t.args);
      done := done + h.code;
      args := args + [Arg(ty, a.op)];
    }
  }

  lemma {:induction false} CatArgs(a: seq<Arg>, x: Arg, b: seq<Arg>)
    ensures (a + [x]) + b == a + ([x] + b)
  {
  }

  /** Context and environment are those of the result `g`. */
  twostate predicate Emitted(ir: IrCtx, env: VarEnv, g: GenS)
    reads ir, env
  {
    ir.out == old(ir.out) + g.code && ir.temp == g.temp && ir.lbl == g.lbl &&
    ir.fatal == (old(ir.fatal) || g.fatal) && env.entries == g.env
  }

  method CgStmt(ir: IrCtx, env: VarEnv, s: W.Stmt, ret: TypeRef) returns (exits: bool, last: Option<GVal>)
    requires env.Valid() && ir.fns.Valid()
    modifies ir`out, ir`temp, ir`lbl, ir`fatal, env
    ensures env.Valid()
    ensures var g := GenStmt(s, old(env.entries), ir.fns.sigs, ret, old(ir.temp), old(ir.lbl));
            exits == g.exits && (!exits ==> last == g.last) && Emitted(ir, env, g)
    decreases s, 4
  {
    hide GenExpr, GenList, Ensured, GenTest, Closed;
    exits, last := false, None;
    match s
    case Nop =>
    case Return(e) =>
      var v := CgExpr(ir, env, e);
      ghost var g := GenExpr(e, env.entries, ir.fns.sigs, old(ir.temp));
      ir.Emit(if ret.Void? then RetVoid else Ret(ret, v.op));
      Cat2(old(ir.out), g.code, [if ret.Void? then RetVoid else Ret(ret, v.op)]);
      exits, last := true, Some(v);
    case StoreTo(_, _, _) => CgStore(ir, env, s, ret);
    case Let(_, _, _, _) => exits, last := CgLet(ir, env, s, ret);
    case Set(_, _) => CgSet(ir, env, s, ret);
    case Do(ss) => exits, last := CgList(ir, env, ss, ret);
    case If(_, _, _) => exits := CgIf(ir, env, s, ret);
    case While(_, _) => CgWhile(ir, env, s, ret);
    case Eval(e) =>
      var v := CgExpr(ir, env, e);
      last := Some(v);
  }

  method CgStore(ir: IrCtx, env: VarEnv, s: W.Stmt, ret: TypeRef)
    requires s.StoreTo? && env.Valid() && ir.fns.Valid()
    modifies ir`out, ir`temp, ir`fatal
    ensures Emitted(ir, env, GenStmt(s, env.entries, ir.fns.sigs, ret, old(ir.temp), ir.lbl))
    decreases s, 3
  {
    hide GenExpr, Ensured;
    ghost var gq := GenExpr(s.p, env.entries, ir.fns.sigs, ir.temp);
    ghost var gv := Ensured(GenExpr(s.e, env.entries, ir.fns.sigs, gq.temp), s.ty);
    var q := CgExpr(ir, env, s.p);
    var v := CgEnsured(ir, env, s.e, s.ty);
    ir.Emit(Store(s.ty, v.op, q.ty, q.op));
    Cat3(old(ir.out), gq.code, gv.code, [Store(s.ty, v.op, q.ty, q.op)]);
  }

  method CgSet(ir: IrCtx, env: VarEnv, s: W.Stmt, ret: TypeRef)
    requires s.Set? && env.Valid() && ir.fns.Valid()
    modifies ir`out, ir`temp, ir`fatal
    ensures Emitted(ir, env, GenStmt(s, env.entries, ir.fns.sigs, ret, old(ir.temp), ir.lbl))
    decreases s, 3
  {
    hide GenExpr, SsaOf;
    ghost var g := GenExpr(s.e, env.entries, ir.fns.sigs, ir.temp);
    var v := CgExpr(ir, env, s.e);
    var ty := env.TypeOfName(s.x);
    var ssa := env.Ssa(s.x);
    var i := StoreSlot(if ty.None? then I32 else ty.value, v.op, ssa);
    ir.Emit(i);
    Cat2(old(ir.out), g.code, [i]);
  }

  method CgLet(ir: IrCtx, env: VarEnv, s: W.Stmt, ret: TypeRef) returns (exits: bool, last: Option<GVal>)
    requires s.Let? && env.Valid() && ir.fns.Valid()
    modifies ir`out, ir`temp, ir`lbl, ir`fatal, env
    ensures env.Valid()
    ensures var g := GenStmt(s, old(env.entries), ir.fns.sigs, ret, old(ir.temp), old(ir.lbl));
            exits == g.exits && (!exits ==> last == g.last) && Emitted(ir, env, g)
    decreases s, 3
  {
    hide GenExpr, GenList, SsaOf;
    ghost var g := GenExpr(s.e, env.entries, ir.fns.sigs, ir.temp);
    ghost var init := GenInit(g, s.ty);
    var v := CgExpr(ir, env, s.e);
    env.Add(s.x, Local, s.ty);
    var ssa := env.Ssa(s.x);
    ir.Emit(Alloca(ssa, s.ty));
    v := CgInit(ir, v, s.ty, g);
    ir.Emit(StoreSlot(s.ty, v.op, ssa));
    Cat4(old(ir.out), g.code, [Alloca(ssa, s.ty)], init.code, [StoreSlot(s.ty, v.op, ssa)]);
    ghost var head := g.code + [Alloca(ssa, s.ty)] + init.code + [StoreSlot(s.ty, v.op, ssa)];
    ghost var rest := GenList(s.rest, env.entries, ir.fns.sigs, ret, ir.temp, ir.lbl);
    exits, last := CgList(ir, env, s.rest, ret);
    Cat2(old(ir.out), head, rest.code);
  }

  /** The load inserted when a `let` initialiser is a pointer to the declared type. */
  method CgInit(ir: IrCtx, v0: GVal, ty: TypeRef, ghost g: GenE) returns (v: GVal)
    requires v0 == g.v && ir.temp == g.temp
    modifies ir`out, ir`temp
    ensures var i := GenInit(g, ty); v == i.v && ir.out == old(ir.out) + i.code && ir.temp == i.temp
  {
    v := v0;
    if v0.ty == Ptr(ty) {
      var t := ir.FreshTemp();
      ir.Emit(Load(t, ty, v0.ty, v0.op));
      v := GVal(ty, Temp(t));
    }
  }

  method CgTest(ir: IrCtx, env: VarEnv, c: W.Expr) returns (t: nat, ghost g: GenE)
    requires env.Valid() && ir.fns.Valid()
    modifies ir`out, ir`temp, ir`fatal
    ensures g == Ensured(GenExpr(c, env.entries, ir.fns.sigs, old(ir.temp)), I32)
    ensures t == g.temp && ir.temp == g.temp + 1 && ir.fatal == (old(ir.fatal) || g.fatal)
    ensures ir.out == old(ir.out) + (g.code + [Icmp(t, Ne, I32, g.v.op, Const(0))])
    decreases c, 3
  {
    hide GenExpr, Ensured;
    g := Ensured(GenExpr(c, env.entries, ir.fns.sigs, ir.temp), I32);
    var v := CgEnsured(ir, env, c, I32);
    t := ir.FreshTemp();
    ir.Emit(Icmp(t, Ne, I32, v.op, Const(0)));
    Cat2(old(ir.out), g.code, [Icmp(t, Ne, I32, v.op, Const(0))]);
  }

  /** A labelled branch or loop body and the jump behind it. */
  method CgBranch(ir: IrCtx, env: VarEnv, s: W.Stmt, ret: TypeRef, l: nat, target: nat) returns (exits: bool)
    requires env.Valid() && ir.fns.Valid()
    modifies ir`out, ir`temp, ir`lbl, ir`fatal, env
    ensures env.Valid()
    ensures var g := GenStmt(s, old(env.entries), ir.fns.sigs, ret, old(ir.temp), old(ir.lbl));
            exits == g.exits && ir.out == old(ir.out) + ([Label(l)] + Closed(g.code, g.exits, target)) &&
            ir.temp == g.temp && ir.lbl == g.lbl && ir.fatal == (old(ir.fatal) || g.fatal) && env.entries == g.env
    decreases s, 5
  {
    hide GenStmt;
    ghost var g := GenStmt(s, env.entries, ir.fns.sigs, ret, ir.temp, ir.lbl);
    ir.Emit(Label(l));
    var last;
    exits, last := CgStmt(ir, env, s, ret);
    Cat2(old(ir.out), [Label(l)], g.code);
    if !exits {
      ir.Emit(Br(target));
      Cat3(old(ir.out), [Label(l)], g.code, [Br(target)]);
      Cat2([Label(l)], g.code, [Br(target)]);
    }
  }

  /** The test of an `if-stmt`: its labels are taken after its temp. */
  method CgIfTest(ir: IrCtx, env: VarEnv, c: W.Expr) returns (thenL: nat, elseL: nat, endL: nat)
    requires env.Valid() && ir.fns.Valid()
    modifies ir`out, ir`temp, ir`lbl, ir`fatal
    ensures thenL == old(ir.lbl) && elseL == thenL + 1 && endL == thenL + 2 && ir.lbl == thenL + 3
    ensures ir.Grown(old(ir.out), old(ir.fatal), GenTest(c, env.entries, ir.fns.sigs, old(ir.temp), thenL, elseL))
    decreases c, 4
  {
    hide GenExpr, Ensured;
    var tc, cv := CgTest(ir, env, c);
    thenL := ir.FreshLabel();
    elseL := ir.FreshLabel();
    endL := ir.FreshLabel();
    ir.Emit(CondBr(tc, thenL, elseL));
    TestCode(old(ir.out), cv.code, Icmp(tc, Ne, I32, cv.v.op, Const(0)), CondBr(tc, thenL, elseL));
  }

  method CgIf(ir: IrCtx, env: VarEnv, s: W.Stmt, ret: TypeRef) returns (exits: bool)
    requires s.If? && env.Valid() && ir.fns.Valid()
    modifies ir`out, ir`temp, ir`lbl, ir`fatal, env
    ensures env.Valid()
    ensures var g := GenStmt(s, old(env.entries), ir.fns.sigs, ret, old(ir.temp), old(ir.lbl));
            exits == g.exits && Emitted(ir, env, g)
    decreases s, 3
  {
    hide GenTest, Closed, GenStmt, SsaName;
    IfCode(s, env.entries, ir.fns.sigs, ret, ir.temp, ir.lbl);
    ghost var q := GenTest(s.cond, env.entries, ir.fns.sigs, ir.temp, ir.lbl, ir.lbl + 1);
    var thenL, elseL, endL := CgIfTest(ir, env, s.cond);
    ghost var t := GenStmt(s.thn, env.entries, ir.fns.sigs, ret, ir.temp, ir.lbl);
    var thenRet := CgBranch(ir, env, s.thn, ret, thenL, endL);
    ghost var f := GenStmt(s.els, env.entries, ir.fns.sigs, ret, ir.temp, ir.lbl);
    var elseRet := CgBranch(ir, env, s.els, ret, elseL, endL);
    exits := thenRet && elseRet;
    if !exits {
      ir.Emit(Label(endL));
    }
    ghost var a := [Label(thenL)] + Closed(t.code, t.exits, endL);
    ghost var b := [Label(elseL)] + Closed(f.code, f.exits, endL);
    ghost var end := if exits then [] else [Label(endL)];
    Cat4(old(ir.out), q.code, a, b, end);
    CatNone(old(ir.out) + q.code + a + b);
  }

  lemma {:induction false} TestCode(o: seq<Instr>, c: seq<Instr>, test: Instr, br: Instr)
    ensures o + (c + [test]) + [br] == o + (c + [test, br])
  {
  }

  lemma {:induction false} CatNone(a: seq<Instr>)
    ensures a + [] == a
  {
  }

  /** The test of a `while`, whose labels were taken before. */
  method CgWhileTest(ir: IrCtx, env: VarEnv, c: W.Expr, bodyL: nat, endL: nat)
    requires env.Valid() && ir.fns.Valid()
    modifies ir`out, ir`temp, ir`fatal
    ensures ir.Grown(old(ir.out), old(ir.fatal), GenTest(c, env.entries, ir.fns.sigs, old(ir.temp), bodyL, endL))
    decreases c, 4
  {
    hide GenExpr, Ensured;
    var tc, cv := CgTest(ir, env, c);
    ir.Emit(CondBr(tc, bodyL, endL));
    TestCode(old(ir.out), cv.code, Icmp(tc, Ne, I32, cv.v.op, Const(0)), CondBr(tc, bodyL, endL));
  }

  method CgWhile(ir: IrCtx, env: VarEnv, s: W.Stmt, ret: TypeRef)
    requires s.While? && env.Valid() && ir.fns.Valid()
    modifies ir`out, ir`temp, ir`lbl, ir`fatal, env
    ensures env.Valid()
    ensures Emitted(ir, env, GenStmt(s, old(env.entries), ir.fns.sigs, ret, old(ir.temp), old(ir.lbl)))
    decreases s, 3
  {
    hide GenTest, Closed, SsaName, GenExpr;
    var condL := ir.FreshLabel();
    var bodyL := ir.FreshLabel();
    var endL := ir.FreshLabel();
    ir.Emit(Br(condL));
    ir.Emit(Label(condL));
    TestCode(old(ir.out), [], Br(condL), Label(condL));
    assert [] + [Br(condL)] == [Br(condL)] && [] + [Br(condL), Label(condL)] == [Br(condL), Label(condL)];
    ghost var q := GenTest(s.cond, env.entries, ir.fns.sigs, ir.temp, bodyL, endL);
    CgWhileTest(ir, env, s.cond, bodyL, endL);
    ghost var b := GenStmt(s.body, env.entries, ir.fns.sigs, ret, ir.temp, ir.lbl);
    var _ := CgBranch(ir, env, s.body, ret, bodyL, condL);
    ir.Emit(Label(endL));
    Cat4(old(ir.out), [Br(condL), Label(condL)], q.code, [Label(bodyL)] + Closed(b.code, b.exits, condL),
      [Label(endL)]);
  }

  /** The statement loops of `do`, `let` and `body`. */
  method CgList(ir: IrCtx, env: VarEnv, ss: seq<W.Stmt>, ret: TypeRef) returns (exits: bool, last: Option<GVal>)
    requires env.Valid() && ir.fns.Valid()
    modifies ir`out, ir`temp, ir`lbl, ir`fatal, env
    ensures env.Valid()
    ensures var g := GenList(ss, old(env.entries), ir.fns.sigs, ret, old(ir.temp), old(ir.lbl));
            exits == g.exits && last == g.last && Emitted(ir, env, g)
    decreases ss, 0
  {
    hide GenStmt;
    last := None;
    ghost var all := GenList(ss, env.entries, ir.fns.sigs, ret, ir.temp, ir.lbl);
    ghost var done: seq<Instr> := [];
    assert ss[0..] == ss;
    for i := 0 to |ss|
      invariant env.Valid() && ir.out == old(ir.out) + done
      invariant var rest := GenList(ss[i..], env.entries, ir.fns.sigs, ret, ir.temp, ir.lbl);
                all.exits == rest.exits && all.env == rest.env && all.temp == rest.temp && all.lbl == rest.lbl &&
                all.code == done + rest.code && (old(ir.fatal) || all.fatal) == (ir.fatal || rest.fatal) &&
                all.last == (if rest.exits then None else if rest.last.Some? then rest.last else last)
    {
      assert ss[i..][0] == ss[i] && ss[i..][1..] == ss[i + 1..];
      ghost var h := GenStmt(ss[i], env.entries, ir.fns.sigs, ret, ir.temp, ir.lbl);
      var x, v := CgStmt(ir, env, ss[i], ret);
      Cat2(old(ir.out), done, h.code);
      if x {
        return true, None;
      }
      ghost var t := GenList(ss[i + 1..], env.entries, ir.fns.sigs, ret, ir.temp, ir.lbl);
      Cat2(done, h.code, t.code);
      done := done + h.code;
      if v.Some? {
        last := v;
      }
    }
    exits := false;
    CatNone(done);
  }

  /** compile_fn_form with emit_default_return. */
  method CompileFn(ir: IrCtx, fn: W.FnDef) returns (f: IrFn)
    requires ir.fns.Valid()
    modifies ir`out, ir`temp, ir`lbl, ir`fatal
    ensures var g := GenFn(fn, ir.fns.sigs, old(ir.temp), old(ir.lbl));
            f == g.fn && ir.temp == g.temp && ir.lbl == g.lbl && ir.fatal == (old(ir.fatal) || g.fatal)
  {
    hide GenHeader, GenParams, GenList, GenEnd;
    var env := DeclareParams(fn.params);
    ir.out := [];
    var params := EmitHeader(ir, env, fn.params);
    ghost var h := GenHeader(fn.params, fn.params);
    ghost var b := GenList(fn.body, fn.params, ir.fns.sigs, fn.ret, ir.temp, ir.lbl);
    var exits, last := CgList(ir, env, fn.body, fn.ret);
    ghost var e := if b.exits then GenE([], ZERO, b.temp, false) else GenEnd(b.last, fn.ret, b.temp);
    if !exits {
      CgEnd(ir, last, fn.ret);
    }
    CatNone(h + b.code);
    f := IrFn(fn.name, fn.ret, params, ir.out);
  }

  /** Registering the parameters. */
  method DeclareParams(ps: seq<Entry>) returns (env: VarEnv)
    ensures fresh(env) && env.Valid() && env.entries == ps
  {
    env := new VarEnv();
    for i := 0 to |ps|
      invariant env.Valid() && fresh(env) && env.entries == ps[..i]
    {
      env.Add(ps[i].name, Parameter, ps[i].ty);
    }
  }

  /** The implicit return at the end of a body. */
  method CgEnd(ir: IrCtx, last: Option<GVal>, ret: TypeRef)
    modifies ir`out, ir`temp, ir`fatal
    ensures ir.Grown(old(ir.out), old(ir.fatal), GenEnd(last, ret, old(ir.temp)))
  {
    hide Ensure;
    if ret.Void? {
      ir.Emit(RetVoid);
    } else if last.Some? {
      ghost var g := Ensure(last.value, ret, ir.temp);
      var v := EnsureType(ir, last.value, ret);
      ir.Emit(Ret(ret, v.op));
      Cat2(old(ir.out), g.code, [Ret(ret, v.op)]);
    } else {
      ir.Emit(DefaultRet(ret));
    }
  }

  /** emit_fn_header: the parameter list, then the allocas. */
  method EmitHeader(ir: IrCtx, env: VarEnv, ps: seq<Entry>) returns (params: seq<IrParam>)
    requires env.Valid() && env.entries == ps && ir.out == []
    modifies ir`out
    ensures ir.out == GenHeader(ps, ps) && params == GenParams(ps, ps)
  {
    hide SsaOf;
    params := [];
    for i := 0 to |ps|
      invariant ir.out == [] && params == GenParams(ps[..i], ps)
    {
      var ssa := env.Ssa(ps[i].name);
      params := params + [IrParam(ssa, ps[i].ty)];
      GenParamsPush(ps, i);
    }
    assert ps[..|ps|] == ps;
    for i := 0 to |ps|
      invariant ir.out == GenHeader(ps[..i], ps)
    {
      var ssa := env.Ssa(ps[i].name);
      ir.Emit(Alloca(ssa, ps[i].ty));
      ir.Emit(StoreSlot(ps[i].ty, Param(ssa), ssa));
      GenHeaderPush(ps, i);
    }
  }

  lemma {:induction false} GenParamsPush(ps: seq<Entry>, i: nat)
    requires i < |ps|
    ensures GenParams(ps[..i + 1], ps) == GenParams(ps[..i], ps) + [IrParam(SsaOf(ps, ps[i].name), ps[i].ty)]
  {
    hide SsaOf;
    assert ps[..i + 1][..i] == ps[..i];
  }

  lemma {:induction false} GenHeaderPush(ps: seq<Entry>, i: nat)
    requires i < |ps|
    ensures var ssa := SsaOf(ps, ps[i].name);
            GenHeader(ps[..i + 1], ps)
            == (GenHeader(ps[..i], ps) + [Alloca(ssa, ps[i].ty)]) + [StoreSlot(ps[i].ty, Param(ssa), ssa)]
  {
    hide SsaOf;
    assert ps[..i + 1][..i] == ps[..i];
  }

  lemma {:induction false} ModuleStep(p: W.Program, i: nat, sigs: W.Sigs, temp: nat, lbl: nat, m: Module)
    requires i < |p|
    ensures var f := GenFn(p[i], sigs, temp, lbl);
            var r := GenModule(p[i + 1..], sigs, f.temp, f.lbl);
            var g := GenModule(p[i..], sigs, temp, lbl);
            m + g.m == m + [f.fn] + r.m && g.fatal == (f.fatal || r.fatal)
  {
    hide GenFn;
    assert p[i..][0] == p[i] && p[i..][1..] == p[i + 1..];
  }

  /** The emission pass of compile_to_llvm_ir: the counters run on. */
  method CompileFunctions(p: W.Program, fns: FnTable) returns (m: Module, fatal: bool)
    requires fns.Valid()
    ensures var g := GenModule(p, fns.sigs, 0, 0); m == g.m && fatal == g.fatal
  {
    hide GenFn, GenModule;
    var ir := new IrCtx(fns);
    m := [];
    ghost var sigs := fns.sigs;
    assert p[0..] == p && m + GenModule(p, sigs, 0, 0).m == GenModule(p, sigs, 0, 0).m;
    for i := 0 to |p|
      invariant fns.Valid() && fns.sigs == sigs
      invariant GenModule(p, sigs, 0, 0).m == m + GenModule(p[i..], sigs, ir.temp, ir.lbl).m
      invariant GenModule(p, sigs, 0, 0).fatal == (ir.fatal || GenModule(p[i..], sigs, ir.temp, ir.lbl).fatal)
    {
      ModuleStep(p, i, sigs, ir.temp, ir.lbl, m);
      var f := CompileFn(ir, p[i]);
      m := m + [f];
    }
    NoFunctions(sigs, ir.temp, ir.lbl, m);
    assert p[|p|..] == [];
    fatal := ir.fatal;
  }

  lemma {:induction false} NoFunctions(sigs: W.Sigs, temp: nat, lbl: nat, m: Module)
    ensures m + GenModule([], sigs, temp, lbl).m == m && !GenModule([], sigs, temp, lbl).fatal
  {
  }
}
