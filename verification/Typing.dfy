/** The types of emitted code: every name has one type, that of its definition, and is used
    at that type only ("Type System" in the LLVM Language Reference). */
module Typing {
  import opened Wrappers
  import opened Types
  import opened Env
  import opened Ir
  import opened Gen
  import opened Blocks
  import opened Scoping
  import Linking
  import Simulation
  import W = Weave

  // ---------- what it means for code to be typed ----------

  /** `i1`, or a type of the source. */
  datatype IrType = I1 | Of(ty: TypeRef)

  /** What the temps are, what the allocas hold, and the signatures of the functions. */
  datatype Names = Names(temps: map<nat, IrType>, slots: map<string, TypeRef>, fns: W.Sigs)

  predicate IsPointer(ty: TypeRef) {
    ty.Ptr? || ty.I8Ptr?
  }

  /** The operand may be used at type `ty`. */
  predicate Is(o: Operand, ty: IrType, ns: Names, ps: seq<IrParam>) {
    match o
    case Const(_) => ty == Of(I32)
    case Temp(t) => t in ns.temps && ns.temps[t] == ty
    case Slot(s) => s in ns.slots && ty == Of(Ptr(ns.slots[s]))
    case Param(x) => exists k :: 0 <= k < |ps| && ps[k].name == x && ty == Of(ps[k].ty)
    case NullOp => ty.Of? && IsPointer(ty.ty)
    case ZeroInit => ty.Of? && ty.ty.Struct?
  }

  /** The instruction's definition and uses have the given types, and it spells them. */
  predicate InstrTyped(i: Instr, ns: Names, ps: seq<IrParam>, ret: TypeRef) {
    match i
    case Alloca(s, ty) => s in ns.slots && ns.slots[s] == ty
    case Load(t, ty, pty, p) => Is(Temp(t), Of(ty), ns, ps) && pty == Ptr(ty) && Is(p, Of(pty), ns, ps)
    case Store(ty, v, pty, p) => Is(v, Of(ty), ns, ps) && pty == Ptr(ty) && Is(p, Of(pty), ns, ps)
    case Bin(t, _, a, b) => Is(Temp(t), Of(I32), ns, ps) && Is(a, Of(I32), ns, ps) && Is(b, Of(I32), ns, ps)
    case Icmp(t, _, ty, a, b) => Is(Temp(t), I1, ns, ps) && Is(a, Of(ty), ns, ps) && Is(b, Of(ty), ns, ps)
    case BoolOp(t, _, a, b) => Is(Temp(t), I1, ns, ps) && Is(a, I1, ns, ps) && Is(b, I1, ns, ps)
    case Zext(t, a) => Is(Temp(t), Of(I32), ns, ps) && Is(a, I1, ns, ps)
    case PtrToInt(t, from, a) => Is(Temp(t), Of(I32), ns, ps) && IsPointer(from) && Is(a, Of(from), ns, ps)
    case NullToPtr(t) => Is(Temp(t), Of(I8Ptr), ns, ps)
    case BitcastI8(t, from, a) => Is(Temp(t), Of(I8Ptr), ns, ps) && IsPointer(from) && Is(a, Of(from), ns, ps)
    case Call(dst, ty, f, args) =>
      f in ns.fns && ns.fns[f] == W.Sig(ty, ArgTypes(args)) &&
      (if ty.Void? then dst.None? else dst.Some? && Is(Temp(dst.value), Of(ty), ns, ps)) &&
      forall k :: 0 <= k < |args| ==> Is(args[k].v, Of(args[k].ty), ns, ps)
    case Label(_) => true
    case Br(_) => true
    case CondBr(c, _, _) => Is(Temp(c), I1, ns, ps)
    case Ret(ty, v) => ty == ret && !ret.Void? && Is(v, Of(ty), ns, ps)
    case RetVoid => ret.Void?
  }

  predicate CodeTyped(code: seq<Instr>, ns: Names, ps: seq<IrParam>, ret: TypeRef) {
    forall i :: i in code ==> InstrTyped(i, ns, ps, ret)
  }

  /** `fns` are the functions that may be called. */
  ghost predicate WellTyped(f: IrFn, fns: W.Sigs) {
    exists ns: Names :: ns.fns == fns && CodeTyped(f.code, ns, f.params, f.ret)
  }

  /** Every load and store through an alloca spells the type that the alloca has. */
  lemma {:induction false} SlotsAgree(f: IrFn, fns: W.Sigs, i: Instr, j: Instr)
    requires WellTyped(f, fns) && i in f.code && j in f.code && i.Alloca?
    ensures j.Load? && j.p == Slot(i.slot) ==> j.pty == Ptr(i.ty) && j.ty == i.ty
    ensures j.Store? && j.p == Slot(i.slot) ==> j.pty == Ptr(i.ty) && j.ty == i.ty
  {
    var ns: Names :| ns.fns == fns && CodeTyped(f.code, ns, f.params, f.ret);
    assert InstrTyped(i, ns, f.params, f.ret) && InstrTyped(j, ns, f.params, f.ret);
  }

  // ---------- more names ----------

  predicate More(a: Names, b: Names) {
    b.fns == a.fns && (forall t :: t in a.temps ==> t in b.temps && b.temps[t] == a.temps[t]) &&
    forall s :: s in a.slots ==> s in b.slots && b.slots[s] == a.slots[s]
  }

  lemma {:induction false} MoreTrans(a: Names, b: Names, c: Names)
    requires More(a, b) && More(b, c)
    ensures More(a, c)
  {
  }

  lemma {:induction false} IsMore(o: Operand, ty: IrType, a: Names, b: Names, ps: seq<IrParam>)
    requires Is(o, ty, a, ps) && More(a, b)
    ensures Is(o, ty, b, ps)
  {
  }

  lemma {:induction false} TypedMore(code: seq<Instr>, a: Names, b: Names, ps: seq<IrParam>, ret: TypeRef)
    requires CodeTyped(code, a, ps, ret) && More(a, b)
    ensures CodeTyped(code, b, ps, ret)
  {
    forall i | i in code ensures InstrTyped(i, b, ps, ret) {
      InstrMore(i, a, b, ps, ret);
    }
  }

  lemma {:induction false} InstrMore(i: Instr, a: Names, b: Names, ps: seq<IrParam>, ret: TypeRef)
    requires InstrTyped(i, a, ps, ret) && More(a, b)
    ensures InstrTyped(i, b, ps, ret)
  {
  }

  lemma {:induction false} TypedBoth(a: seq<Instr>, b: seq<Instr>, ns: Names, ps: seq<IrParam>, ret: TypeRef)
    requires CodeTyped(a, ns, ps, ret) && CodeTyped(b, ns, ps, ret)
    ensures CodeTyped(a + b, ns, ps, ret)
  {
    hide InstrTyped;
  }

  lemma {:induction false} TypedOne(i: Instr, ns: Names, ps: seq<IrParam>, ret: TypeRef)
    requires InstrTyped(i, ns, ps, ret)
    ensures CodeTyped([i], ns, ps, ret)
  {
    hide InstrTyped;
  }

  lemma {:induction false} TypedNone(ns: Names, ps: seq<IrParam>, ret: TypeRef)
    ensures CodeTyped([], ns, ps, ret)
  {
  }

  // ---------- the names of generated code ----------

  /** All temps are below `temp`, and the allocas are exactly those of `env`. */
  ghost predicate Holds(ns: Names, temp: nat, env: seq<Entry>) {
    (forall t :: t in ns.temps ==> t < temp) &&
    (forall k :: 0 <= k < |env| ==>
       SsaName(env[k].name, k) in ns.slots && ns.slots[SsaName(env[k].name, k)] == env[k].ty) &&
    forall s :: s in ns.slots ==> exists x: string, k: nat :: k < |env| && s == SsaName(x, k)
  }

  lemma {:induction false} HoldsLater(ns: Names, temp: nat, later: nat, env: seq<Entry>)
    requires Holds(ns, temp, env) && temp <= later
    ensures Holds(ns, later, env)
  {
  }

  function WithTemp(ns: Names, t: nat, ty: IrType): Names {
    ns.(temps := ns.temps[t := ty])
  }

  /** A new temp. */
  lemma {:induction false} AddTemp(ns: Names, temp: nat, t: nat, ty: IrType, env: seq<Entry>)
    requires Holds(ns, temp, env) && (temp <= t || t !in ns.temps)
    ensures var more := WithTemp(ns, t, ty);
            More(ns, more) && Holds(more, if t < temp then temp else t + 1, env) &&
            t in more.temps && more.temps[t] == ty
  {
  }

  /** A new alloca. */
  lemma {:induction false} AddSlot(ns: Names, temp: nat, e: Entry, env: seq<Entry>)
    requires Holds(ns, temp, env)
    ensures var more := ns.(slots := ns.slots[SsaName(e.name, |env|) := e.ty]);
            More(ns, more) && Holds(more, temp, env + [e])
  {
    hide SsaName;
    var ssa := SsaName(e.name, |env|);
    if ssa in ns.slots {
      var x: string, k: nat :| k < |env| && ssa == SsaName(x, k);
      SsaNamesDistinct(x, k, e.name, |env|);
    }
    var more := ns.(slots := ns.slots[ssa := e.ty]);
    assert (env + [e])[|env|] == e;
    forall s | s in more.slots ensures exists x: string, k: nat :: k < |env + [e]| && s == SsaName(x, k) {
      if s == ssa {
        assert |env| < |env + [e]| && s == SsaName(e.name, |env|);
      } else {
        var x: string, k: nat :| k < |env| && s == SsaName(x, k);
        assert k < |env + [e]|;
      }
    }
  }

  /** A variable is in an alloca of its type. */
  lemma {:induction false} SlotHeld(ns: Names, temp: nat, env: seq<Entry>, x: string, ps: seq<IrParam>)
    requires Holds(ns, temp, env) && TypeOf(env, x).Some?
    ensures Is(Slot(SsaOf(env, x)), Of(Ptr(TypeOf(env, x).value)), ns, ps)
  {
    hide SsaName;
    FindIsLast(env, x);
  }

  // ---------- expressions ----------

  /** The code of an expression is typed, and its value has its type. */
  ghost predicate ExprTyped(g: GenE, from: Names, ns: Names, env: seq<Entry>, ps: seq<IrParam>, ret: TypeRef) {
    More(from, ns) && Holds(ns, g.temp, env) && CodeTyped(g.code, ns, ps, ret) && Is(g.v.op, Of(g.v.ty), ns, ps)
  }

  /** One more instruction, which defines the next temp. */
  lemma {:induction false} TypedDef(code: seq<Instr>, i: Instr, t: nat, ty: IrType, from: Names, ns: Names,
          env: seq<Entry>, ps: seq<IrParam>, ret: TypeRef)
    returns (more: Names)
    requires More(from, ns) && Holds(ns, t, env) && CodeTyped(code, ns, ps, ret)
    requires InstrTyped(i, WithTemp(ns, t, ty), ps, ret)
    ensures more == WithTemp(ns, t, ty)
    ensures More(from, more) && More(ns, more) && Holds(more, t + 1, env) && CodeTyped(code + [i], more, ps, ret)
    ensures Is(Temp(t), ty, more, ps)
  {
    hide InstrTyped, Holds, CodeTyped;
    more := WithTemp(ns, t, ty);
    AddTemp(ns, t, t, ty, env);
    MoreTrans(from, ns, more);
    TypedMore(code, ns, more, ps, ret);
    TypedOne(i, more, ps, ret);
    TypedBoth(code, [i], more, ps, ret);
  }

  /** A conversion, also one whose temp lies behind others that are still to be defined. */
  lemma {:induction false} EnsureTyped(v: GVal, ty: TypeRef, temp: nat, ns: Names, env: seq<Entry>, ps: seq<IrParam>,
          ret: TypeRef)
    returns (more: Names)
    requires Holds(ns, temp, env) && Is(v.op, Of(v.ty), ns, ps) && !Ensure(v, ty, temp).fatal
    ensures ExprTyped(Ensure(v, ty, temp), ns, more, env, ps, ret) && Ensure(v, ty, temp).v.ty == ty
  {
    hide Holds;
    var g := Ensure(v, ty, temp);
    TypedNone(ns, ps, ret);
    more := ns;
    if g.code != [] {
      AddTemp(ns, temp, temp, Of(ty), env);
      IsMore(v.op, Of(v.ty), ns, WithTemp(ns, temp, Of(ty)), ps);
      more := TypedDef([], g.code[0], temp, Of(ty), ns, ns, env, ps, ret);
      assert [] + [g.code[0]] == g.code;
    }
  }

  lemma {:induction false} EnsuredTyped(e: W.Expr, ty: TypeRef, sc: W.Scope, sigs: W.Sigs, temp: nat, ns: Names,
          ps: seq<IrParam>, ret: TypeRef)
    returns (more: Names)
    requires W.ExprOk(e, sc, sigs) && W.Converts(W.YieldOf(e, W.Plain(sc), sigs), ty) &&
             Holds(ns, temp, W.Plain(sc)) && ns.fns == sigs
    ensures var g := Ensured(GenExpr(e, W.Plain(sc), sigs, temp), ty);
            ExprTyped(g, ns, more, W.Plain(sc), ps, ret) && g.v.ty == ty
    decreases e, 3
  {
    hide Holds, CodeTyped, Is, GenExpr, W.ExprOk, W.Converts, W.YieldOf, W.Plain, Ensure;
    var env := W.Plain(sc);
    var g := GenExpr(e, env, sigs, temp);
    var mid := GenTyped(e, sc, sigs, temp, ns, ps, ret);
    Known(e, ty, env, sigs, temp);
    var c := Ensure(g.v, ty, g.temp);
    more := EnsureTyped(g.v, ty, g.temp, mid, env, ps, ret);
    MoreTrans(ns, mid, more);
    TypedMore(g.code, mid, more, ps, ret);
    TypedBoth(g.code, c.code, more, ps, ret);
  }

  lemma {:induction false} Known(e: W.Expr, ty: TypeRef, env: seq<Entry>, sigs: W.Sigs, temp: nat)
    requires W.Converts(W.YieldOf(e, env, sigs), ty)
    ensures !Ensure(GenExpr(e, env, sigs, temp).v, ty, GenExpr(e, env, sigs, temp).temp).fatal
  {
    hide GenExpr, W.ExprType;
    GenType(e, env, sigs, temp);
    if W.IsZero(e, env, sigs) {
      GenZero(e, env, sigs, temp);
    }
  }

  lemma {:induction false} GenTyped(e: W.Expr, sc: W.Scope, sigs: W.Sigs, temp: nat, ns: Names, ps: seq<IrParam>,
          ret: TypeRef)
    returns (more: Names)
    requires W.ExprOk(e, sc, sigs) && Holds(ns, temp, W.Plain(sc)) && ns.fns == sigs
    ensures ExprTyped(GenExpr(e, W.Plain(sc), sigs, temp), ns, more, W.Plain(sc), ps, ret)
    decreases e, 2
  {
    hide Holds, SsaOf, Find, W.Plain, W.Resolves, TypeOf, W.OperandsOk;
    var env := W.Plain(sc);
    TypedNone(ns, ps, ret);
    more := ns;
    match e
    case Const(_) =>
    case Var(x) =>
      if TypeOf(env, x).Some? {
        var ty := TypeOf(env, x).value;
        SlotHeld(ns, temp, env, x, ps);
        var i := Load(temp, ty, Ptr(ty), Slot(SsaOf(env, x)));
        more := TypedDef([], i, temp, Of(ty), ns, ns, env, ps, ret);
        assert [] + [i] == [i];
      }
    case AddrOf(x) =>
      if TypeOf(env, x).Some? {
        SlotHeld(ns, temp, env, x, ps);
      }
    case Deref(ty, p) =>
      var g := GenExpr(p, env, sigs, temp);
      var mid := GenTyped(p, sc, sigs, temp, ns, ps, ret);
      GenType(p, env, sigs, temp);
      AddTemp(mid, g.temp, g.temp, Of(ty), env);
      IsMore(g.v.op, Of(g.v.ty), mid, WithTemp(mid, g.temp, Of(ty)), ps);
      more := TypedDef(g.code, Load(g.temp, ty, g.v.ty, g.v.op), g.temp, Of(ty), ns, mid, env, ps, ret);
    case Binary(_, _, _) => more := BinaryTyped(e, sc, sigs, temp, ns, ps, ret);
    case CallFn(f, args) =>
      var mid := ArgsTyped(args, f, 0, sc, sigs, temp, ns, ps, ret);
      more := CallTyped(e, env, sigs, temp, ns, mid, ps, ret);
  }

  ghost predicate ArgsAre(args: seq<Arg>, ns: Names, ps: seq<IrParam>) {
    forall k :: 0 <= k < |args| ==> Is(args[k].v, Of(args[k].ty), ns, ps)
  }

  lemma {:induction false} CallTyped(e: W.Expr, env: seq<Entry>, sigs: W.Sigs, temp: nat, from: Names, ns: Names,
          ps: seq<IrParam>, ret: TypeRef)
    returns (more: Names)
    requires e.CallFn?
    requires var a := GenArgs(e.args, e.f, 0, env, sigs, temp);
             More(from, ns) && Holds(ns, a.temp, env) && CodeTyped(a.code, ns, ps, ret) && ArgsAre(a.args, ns, ps) &&
             ns.fns == sigs && e.f in sigs && ArgTypes(a.args) == sigs[e.f].params
    ensures ExprTyped(GenExpr(e, env, sigs, temp), from, more, env, ps, ret)
  {
    hide Holds, GenArgs, GenExpr, CodeTyped;
    var a := GenArgs(e.args, e.f, 0, env, sigs, temp);
    Simulation.CallCode(e, env, sigs, temp);
    var i := Simulation.CallInstr(e, a, sigs);
    var ty := RetType(sigs, e.f);
    if ty.Void? {
      more := ns;
      TypedOne(i, ns, ps, ret);
      TypedBoth(a.code, [i], ns, ps, ret);
    } else {
      AddTemp(ns, a.temp, a.temp, Of(ty), env);
      forall k | 0 <= k < |a.args| ensures Is(a.args[k].v, Of(a.args[k].ty), WithTemp(ns, a.temp, Of(ty)), ps) {
        IsMore(a.args[k].v, Of(a.args[k].ty), ns, WithTemp(ns, a.temp, Of(ty)), ps);
      }
      more := TypedDef(a.code, i, a.temp, Of(ty), from, ns, env, ps, ret);
    }
  }

  lemma {:induction false} ArgsTyped(es: seq<W.Expr>, f: string, i: nat, sc: W.Scope, sigs: W.Sigs, temp: nat,
          ns: Names, ps: seq<IrParam>, ret: TypeRef)
    returns (more: Names)
    requires f in sigs && i <= |sigs[f].params| && W.ArgsOk(es, sigs[f].params[i..], sc, sigs)
    requires Holds(ns, temp, W.Plain(sc)) && ns.fns == sigs
    ensures var a := GenArgs(es, f, i, W.Plain(sc), sigs, temp);
            More(ns, more) && Holds(more, a.temp, W.Plain(sc)) && CodeTyped(a.code, more, ps, ret) &&
            ArgsAre(a.args, more, ps) && ArgTypes(a.args) == sigs[f].params[i..]
    decreases es, 0
  {
    hide Holds, CodeTyped, Is, Ensured, GenExpr, W.Plain, W.Converts, W.YieldOf, W.ExprOk;
    TypedNone(ns, ps, ret);
    more := ns;
    if es != [] {
      var env := W.Plain(sc);
      var ty := ParamType(sigs, f, i);
      assert sigs[f].params[i..][1..] == sigs[f].params[i + 1..] && sigs[f].params[i..][0] == ty;
      var h := Ensured(GenExpr(es[0], env, sigs, temp), ty);
      var t := GenArgs(es[1..], f, i + 1, env, sigs, h.temp);
      var mid := EnsuredTyped(es[0], ty, sc, sigs, temp, ns, ps, ret);
      more := ArgsTyped(es[1..], f, i + 1, sc, sigs, h.temp, mid, ps, ret);
      MoreTrans(ns, mid, more);
      TypedMore(h.code, mid, more, ps, ret);
      TypedBoth(h.code, t.code, more, ps, ret);
      IsMore(h.v.op, Of(ty), mid, more, ps);
      var args := GenArgs(es, f, i, env, sigs, temp).args;
      assert args[1..] == t.args && sigs[f].params[i..] == [ty] + sigs[f].params[i + 1..];
      forall k | 0 <= k < |args| ensures Is(args[k].v, Of(args[k].ty), more, ps) {
        if k > 0 {
          assert args[k] == t.args[k - 1];
        }
      }
    }
  }

  /** An operand of `op` is typed; all but comparisons take numbers. */
  lemma {:induction false} OperandTyped(op: W.Operator, e: W.Expr, sc: W.Scope, sigs: W.Sigs, temp: nat, ns: Names,
          ps: seq<IrParam>, ret: TypeRef)
    returns (more: Names)
    requires W.ExprOk(e, sc, sigs) && Holds(ns, temp, W.Plain(sc)) && ns.fns == sigs
    requires op.Cmp? || W.Converts(W.YieldOf(e, W.Plain(sc), sigs), I32)
    ensures var g := OperandCode(op, GenExpr(e, W.Plain(sc), sigs, temp));
            ExprTyped(g, ns, more, W.Plain(sc), ps, ret) && (!op.Cmp? ==> g.v.ty == I32)
    decreases e, 4
  {
    hide ExprTyped, Holds, GenExpr, Ensured, W.ExprOk, W.Converts, W.YieldOf, W.Plain;
    if op.Cmp? {
      more := GenTyped(e, sc, sigs, temp, ns, ps, ret);
    } else {
      more := EnsuredTyped(e, I32, sc, sigs, temp, ns, ps, ret);
    }
  }

  lemma {:induction false} BinaryTyped(e: W.Expr, sc: W.Scope, sigs: W.Sigs, temp: nat, ns: Names, ps: seq<IrParam>,
          ret: TypeRef)
    returns (more: Names)
    requires e.Binary? && W.ExprOk(e, sc, sigs) && Holds(ns, temp, W.Plain(sc)) && ns.fns == sigs
    ensures ExprTyped(GenExpr(e, W.Plain(sc), sigs, temp), ns, more, W.Plain(sc), ps, ret)
    decreases e, 1
  {
    hide Holds, CodeTyped, Is, GenExpr, OperandCode, GenTail, W.Plain, W.Converts, W.YieldOf, W.ExprOk;
    var env := W.Plain(sc);
    Simulation.OperandsChecked(e, sc, sigs);
    BinaryParts(e, env, sigs, temp);
    var l := OperandCode(e.op, GenExpr(e.lhs, env, sigs, temp));
    var r := OperandCode(e.op, GenExpr(e.rhs, env, sigs, l.temp));
    var t := GenTail(e.op, l.v, r.v, r.temp);
    var n1 := OperandTyped(e.op, e.lhs, sc, sigs, temp, ns, ps, ret);
    var n2 := OperandTyped(e.op, e.rhs, sc, sigs, l.temp, n1, ps, ret);
    IsMore(l.v.op, Of(l.v.ty), n1, n2, ps);
    TailConverts(e, env, sigs, temp);
    more := TailTyped(e.op, l.v, r.v, r.temp, n2, env, ps, ret);
    MoreTrans(ns, n1, n2);
    MoreTrans(ns, n2, more);
    MoreTrans(n1, n2, more);
    TypedMore(l.code, n1, more, ps, ret);
    TypedMore(r.code, n2, more, ps, ret);
    TypedBoth(l.code, r.code, more, ps, ret);
    TypedBoth(l.code + r.code, t.code, more, ps, ret);
  }

  /** Comparisons know how to convert checked operands. */
  lemma {:induction false} TailConverts(e: W.Expr, env: seq<Entry>, sigs: W.Sigs, temp: nat)
    requires e.Binary? && W.OperandsOk(e.op, e.lhs, e.rhs, env, sigs)
    ensures var l := OperandCode(e.op, GenExpr(e.lhs, env, sigs, temp));
            var r := OperandCode(e.op, GenExpr(e.rhs, env, sigs, l.temp));
            e.op.Cmp? ==> CmpConverts(e.op.c, l.v, r.v)
  {
    hide GenExpr, W.YieldOf, W.Converts, Ensure;
    if e.op.Cmp? {
      var l := GenExpr(e.lhs, env, sigs, temp);
      var r := GenExpr(e.rhs, env, sigs, l.temp);
      GenType(e.lhs, env, sigs, temp);
      GenType(e.rhs, env, sigs, l.temp);
      Simulation.YieldTypes(e.lhs, env, sigs);
      Simulation.YieldTypes(e.rhs, env, sigs);
      var ty := W.OperandType(e.op, l.v.ty, r.v.ty);
      Known(e.lhs, ty, env, sigs, temp);
      Known(e.rhs, ty, env, sigs, l.temp);
      FatalAnywhere(l.v, ty, l.temp);
      FatalAnywhere(r.v, ty, r.temp);
    }
  }

  /** Whether a conversion is known depends on the value only. */
  lemma {:induction false} FatalAnywhere(v: GVal, ty: TypeRef, temp: nat)
    requires !Ensure(v, ty, temp).fatal
    ensures !Ensure(v, ty, 0).fatal
  {
  }

  predicate CmpConverts(o: W.CmpOp, l: GVal, r: GVal) {
    var ty := W.OperandType(W.Cmp(o), l.ty, r.ty);
    !Ensure(l, ty, 0).fatal && !Ensure(r, ty, 0).fatal
  }

  lemma {:induction false} TailTyped(op: W.Operator, l: GVal, r: GVal, t: nat, ns: Names, env: seq<Entry>,
          ps: seq<IrParam>, ret: TypeRef)
    returns (more: Names)
    requires Holds(ns, t, env) && Is(l.op, Of(l.ty), ns, ps) && Is(r.op, Of(r.ty), ns, ps)
    requires if op.Cmp? then CmpConverts(op.c, l, r) else l.ty == I32 && r.ty == I32
    ensures ExprTyped(GenTail(op, l, r, t), ns, more, env, ps, ret)
  {
    hide Holds, CodeTyped, CmpConverts, GenCmp;
    match op
    case Arith(o) =>
      AddTemp(ns, t, t, Of(I32), env);
      TypedNone(ns, ps, ret);
      IsMore(l.op, Of(I32), ns, WithTemp(ns, t, Of(I32)), ps);
      IsMore(r.op, Of(I32), ns, WithTemp(ns, t, Of(I32)), ps);
      more := TypedDef([], Bin(t, BinOpOf(o), l.op, r.op), t, Of(I32), ns, ns, env, ps, ret);
      assert [] + [Bin(t, BinOpOf(o), l.op, r.op)] == [Bin(t, BinOpOf(o), l.op, r.op)];
    case Cmp(o) => more := CmpTyped(o, l, r, t, ns, env, ps, ret);
    case Logic(o) => more := LogicTyped(o, l, r, t, ns, env, ps, ret);
  }

  lemma {:induction false} LogicTyped(o: W.LogicOp, l: GVal, r: GVal, t: nat, ns: Names, env: seq<Entry>,
          ps: seq<IrParam>, ret: TypeRef)
    returns (more: Names)
    requires Holds(ns, t, env) && Is(l.op, Of(I32), ns, ps) && Is(r.op, Of(I32), ns, ps)
    ensures ExprTyped(GenTail(W.Logic(o), l, r, t), ns, more, env, ps, ret)
  {
    hide Holds, CodeTyped, More, Is;
    var i, j := Icmp(t, Ne, I32, l.op, Const(0)), Icmp(t + 1, Ne, I32, r.op, Const(0));
    var m, n := BoolOp(t + 2, BoolOpOf(o), Temp(t), Temp(t + 1)), Zext(t + 3, Temp(t + 2));
    TypedNone(ns, ps, ret);
    MoreSelf(ns);
    NewTemp(ns, t, I1, env, ps);
    IsMore(l.op, Of(I32), ns, WithTemp(ns, t, I1), ps);
    ConstTyped(0, WithTemp(ns, t, I1), ps);
    var n1 := TypedDef([], i, t, I1, ns, ns, env, ps, ret);
    NewTemp(n1, t + 1, I1, env, ps);
    IsMore(r.op, Of(I32), ns, n1, ps);
    IsMore(r.op, Of(I32), n1, WithTemp(n1, t + 1, I1), ps);
    ConstTyped(0, WithTemp(n1, t + 1, I1), ps);
    var n2 := TypedDef([] + [i], j, t + 1, I1, ns, n1, env, ps, ret);
    NewTemp(n2, t + 2, I1, env, ps);
    IsMore(Temp(t), I1, n1, n2, ps);
    IsMore(Temp(t), I1, n2, WithTemp(n2, t + 2, I1), ps);
    IsMore(Temp(t + 1), I1, n2, WithTemp(n2, t + 2, I1), ps);
    var n3 := TypedDef([] + [i] + [j], m, t + 2, I1, ns, n2, env, ps, ret);
    NewTemp(n3, t + 3, Of(I32), env, ps);
    IsMore(Temp(t + 2), I1, n3, WithTemp(n3, t + 3, Of(I32)), ps);
    more := TypedDef([] + [i] + [j] + [m], n, t + 3, Of(I32), ns, n3, env, ps, ret);
    assert [] + [i] + [j] + [m] + [n] == [i, j, m, n];
  }

  lemma {:induction false} NewTemp(ns: Names, t: nat, ty: IrType, env: seq<Entry>, ps: seq<IrParam>)
    requires Holds(ns, t, env)
    ensures More(ns, WithTemp(ns, t, ty)) && Is(Temp(t), ty, WithTemp(ns, t, ty), ps)
  {
    hide Holds;
    AddTemp(ns, t, t, ty, env);
  }

  lemma {:induction false} MoreSelf(ns: Names)
    ensures More(ns, ns)
  {
  }

  lemma {:induction false} ConstTyped(n: int, ns: Names, ps: seq<IrParam>)
    ensures Is(Const(n), Of(I32), ns, ps)
  {
  }

  /** The two result temps are reserved before the conversions. */
  lemma {:induction false} CmpTyped(o: W.CmpOp, l: GVal, r: GVal, t: nat, ns: Names, env: seq<Entry>,
          ps: seq<IrParam>, ret: TypeRef)
    returns (more: Names)
    requires Holds(ns, t, env) && Is(l.op, Of(l.ty), ns, ps) && Is(r.op, Of(r.ty), ns, ps) && CmpConverts(o, l, r)
    ensures ExprTyped(GenCmp(o, l, r, t), ns, more, env, ps, ret)
  {
    hide Holds, CodeTyped, Is, Ensure, W.OperandType;
    var ty := W.OperandType(W.Cmp(o), l.ty, r.ty);
    var a := Ensure(l, ty, t + 2);
    var b := Ensure(r, ty, a.temp);
    Reserve(ns, t, env, ps);
    var n0 := WithTemp(WithTemp(ns, t, I1), t + 1, Of(I32));
    FatalNowhere(l, ty, t + 2);
    FatalNowhere(r, ty, a.temp);
    IsMore(l.op, Of(l.ty), ns, n0, ps);
    var n1 := EnsureTyped(l, ty, t + 2, n0, env, ps, ret);
    IsMore(r.op, Of(r.ty), ns, n0, ps);
    IsMore(r.op, Of(r.ty), n0, n1, ps);
    more := EnsureTyped(r, ty, a.temp, n1, env, ps, ret);
    MoreTrans(n0, n1, more);
    MoreTrans(ns, n0, more);
    IsMore(a.v.op, Of(ty), n1, more, ps);
    IsMore(Temp(t), I1, n0, more, ps);
    IsMore(Temp(t + 1), Of(I32), n0, more, ps);
    TypedMore(a.code, n1, more, ps, ret);
    TypedBoth(a.code, b.code, more, ps, ret);
    var i, z := Icmp(t, PredOf(o), ty, a.v.op, b.v.op), Zext(t + 1, Temp(t));
    TypedOne(i, more, ps, ret);
    TypedOne(z, more, ps, ret);
    TypedBoth([i], [z], more, ps, ret);
    assert [i] + [z] == [i, z];
    TypedBoth(a.code + b.code, [i, z], more, ps, ret);
  }

  lemma {:induction false} FatalNowhere(v: GVal, ty: TypeRef, temp: nat)
    requires !Ensure(v, ty, 0).fatal
    ensures !Ensure(v, ty, temp).fatal
  {
  }

  lemma {:induction false} Reserve(ns: Names, t: nat, env: seq<Entry>, ps: seq<IrParam>)
    requires Holds(ns, t, env)
    ensures var more := WithTemp(WithTemp(ns, t, I1), t + 1, Of(I32));
            More(ns, more) && Holds(more, t + 2, env) && Is(Temp(t), I1, more, ps) && Is(Temp(t + 1), Of(I32), more, ps)
  {
    hide Holds;
    AddTemp(ns, t, t, I1, env);
    var n1 := WithTemp(ns, t, I1);
    AddTemp(n1, t + 1, t + 1, Of(I32), env);
    MoreTrans(ns, n1, WithTemp(n1, t + 1, Of(I32)));
  }

  // ---------- statements ----------

  ghost predicate StmtTyped(g: GenS, from: Names, ns: Names, ps: seq<IrParam>, ret: TypeRef) {
    More(from, ns) && Holds(ns, g.temp, g.env) && CodeTyped(g.code, ns, ps, ret) &&
    (g.last.Some? ==> Is(g.last.value.op, Of(g.last.value.ty), ns, ps))
  }

  lemma {:induction false} TypedStmt(s: W.Stmt, sc: W.Scope, sigs: W.Sigs, ret: TypeRef, temp: nat, lbl: nat,
          ns: Names, ps: seq<IrParam>)
    returns (more: Names)
    requires W.CheckStmt(s, sc, sigs, ret).Some? && Holds(ns, temp, W.Plain(sc)) && ns.fns == sigs
    ensures StmtTyped(GenStmt(s, W.Plain(sc), sigs, ret, temp, lbl), ns, more, ps, ret)
    decreases s, 2
  {
    hide Holds, CodeTyped, GenExpr, W.ExprOk, Ensured, W.Plain, W.Converts, Is, TypeOf, SsaOf, W.Resolves, W.IsZero;
    var env := W.Plain(sc);
    var g := GenStmt(s, env, sigs, ret, temp, lbl);
    match s
    case Nop =>
      TypedNone(ns, ps, ret);
      more := ns;
    case Return(e) =>
      var v := GenExpr(e, env, sigs, temp);
      GenType(e, env, sigs, temp);
      more := GenTyped(e, sc, sigs, temp, ns, ps, ret);
      var i := if ret.Void? then RetVoid else Ret(ret, v.v.op);
      TypedOne(i, more, ps, ret);
      TypedBoth(v.code, [i], more, ps, ret);
    case StoreTo(ty, p, e) => more := TypedStore(s, sc, sigs, ret, temp, lbl, ns, ps);
    case Let(_, _, _, _) => more := TypedLet(s, sc, sigs, ret, temp, lbl, ns, ps);
    case Set(x, e) =>
      var v := GenExpr(e, env, sigs, temp);
      GenType(e, env, sigs, temp);
      more := GenTyped(e, sc, sigs, temp, ns, ps, ret);
      var ty := TypeOf(env, x).value;
      SlotHeld(more, v.temp, env, x, ps);
      TypedOne(StoreSlot(ty, v.v.op, SsaOf(env, x)), more, ps, ret);
      TypedBoth(v.code, [StoreSlot(ty, v.v.op, SsaOf(env, x))], more, ps, ret);
    case Do(ss) => more := TypedList(ss, sc, sigs, ret, temp, lbl, ns, ps);
    case If(_, _, _) => more := TypedIf(s, sc, sigs, ret, temp, lbl, ns, ps);
    case While(_, _) => more := TypedWhile(s, sc, sigs, ret, temp, lbl, ns, ps);
    case Eval(e) => more := GenTyped(e, sc, sigs, temp, ns, ps, ret);
  }

  lemma {:induction false} TypedStore(s: W.Stmt, sc: W.Scope, sigs: W.Sigs, ret: TypeRef, temp: nat, lbl: nat,
          ns: Names, ps: seq<IrParam>)
    returns (more: Names)
    requires s.StoreTo? && W.CheckStmt(s, sc, sigs, ret).Some? && Holds(ns, temp, W.Plain(sc)) && ns.fns == sigs
    ensures StmtTyped(GenStmt(s, W.Plain(sc), sigs, ret, temp, lbl), ns, more, ps, ret)
  {
    hide Holds, CodeTyped, GenExpr, W.ExprOk, Ensured, W.Plain, W.Converts, Is, W.YieldOf;
    var env := W.Plain(sc);
    var q := GenExpr(s.p, env, sigs, temp);
    var v := Ensured(GenExpr(s.e, env, sigs, q.temp), s.ty);
    GenType(s.p, env, sigs, temp);
    var mid := GenTyped(s.p, sc, sigs, temp, ns, ps, ret);
    more := EnsuredTyped(s.e, s.ty, sc, sigs, q.temp, mid, ps, ret);
    MoreTrans(ns, mid, more);
    IsMore(q.v.op, Of(q.v.ty), mid, more, ps);
    TypedMore(q.code, mid, more, ps, ret);
    TypedBoth(q.code, v.code, more, ps, ret);
    var i := Store(s.ty, v.v.op, q.v.ty, q.v.op);
    TypedOne(i, more, ps, ret);
    TypedBoth(q.code + v.code, [i], more, ps, ret);
  }

  /** The alloca of a `let` and what is stored into it. */
  lemma {:induction false} TypedLet(s: W.Stmt, sc: W.Scope, sigs: W.Sigs, ret: TypeRef, temp: nat, lbl: nat,
          ns: Names, ps: seq<IrParam>)
    returns (more: Names)
    requires s.Let? && W.CheckStmt(s, sc, sigs, ret).Some? && Holds(ns, temp, W.Plain(sc)) && ns.fns == sigs
    ensures StmtTyped(GenStmt(s, W.Plain(sc), sigs, ret, temp, lbl), ns, more, ps, ret)
    decreases s, 1
  {
    hide Holds, CodeTyped, GenExpr, W.ExprOk, W.Plain, Is, GenList, W.CheckList, SsaName, GenInit;
    var env := W.Plain(sc);
    var e := Entry(s.x, s.ty);
    var sc' := sc + [W.Seen(e, true)];
    PlainPush(sc, e);
    LetSlot(sc, e);
    var ssa := SsaName(s.x, |sc|);
    var v := GenExpr(s.e, env, sigs, temp);
    var i := GenInit(v, s.ty);
    var r := GenList(s.rest, env + [e], sigs, ret, i.temp, lbl);
    GenType(s.e, env, sigs, temp);
    var n1 := GenTyped(s.e, sc, sigs, temp, ns, ps, ret);
    AddSlot(n1, v.temp, e, env);
    var n2 := n1.(slots := n1.slots[ssa := s.ty]);
    IsMore(v.v.op, Of(v.v.ty), n1, n2, ps);
    var n3 := InitTyped(v, s.ty, n2, env + [e], ps, ret);
    more := TypedList(s.rest, sc', sigs, ret, i.temp, lbl, n3, ps);
    var a, st := Alloca(ssa, s.ty), StoreSlot(s.ty, i.v.op, ssa);
    SlotIs(n2, ssa, s.ty, ps);
    IsMore(Slot(ssa), Of(Ptr(s.ty)), n2, n3, ps);
    TypedOne(a, n2, ps, ret);
    TypedOne(st, n3, ps, ret);
    MoreTrans(n1, n2, n3);
    MoreTrans(n2, n3, more);
    MoreTrans(n1, n3, more);
    MoreTrans(ns, n1, more);
    TypedMore(v.code, n1, more, ps, ret);
    TypedMore([a], n2, more, ps, ret);
    TypedMore(i.code, n3, more, ps, ret);
    TypedMore([st], n3, more, ps, ret);
    TypedBoth(v.code, [a], more, ps, ret);
    TypedBoth(v.code + [a], i.code, more, ps, ret);
    TypedBoth(v.code + [a] + i.code, [st], more, ps, ret);
    TypedBoth(v.code + [a] + i.code + [st], r.code, more, ps, ret);
  }

  lemma {:induction false} SlotIs(ns: Names, ssa: string, ty: TypeRef, ps: seq<IrParam>)
    requires ssa in ns.slots && ns.slots[ssa] == ty
    ensures Is(Slot(ssa), Of(Ptr(ty)), ns, ps) && InstrTyped(Alloca(ssa, ty), ns, ps, Void)
  {
  }

  lemma {:induction false} InitTyped(v: GenE, ty: TypeRef, ns: Names, env: seq<Entry>, ps: seq<IrParam>, ret: TypeRef)
    returns (more: Names)
    requires Holds(ns, v.temp, env) && Is(v.v.op, Of(v.v.ty), ns, ps) && (v.v.ty == ty || v.v.ty == Ptr(ty))
    ensures var i := GenInit(v, ty); ExprTyped(i, ns, more, env, ps, ret) && i.v.ty == ty
  {
    hide Holds;
    var i := GenInit(v, ty);
    TypedNone(ns, ps, ret);
    more := ns;
    if i.code != [] {
      AddTemp(ns, v.temp, v.temp, Of(ty), env);
      IsMore(v.v.op, Of(v.v.ty), ns, WithTemp(ns, v.temp, Of(ty)), ps);
      more := TypedDef([], i.code[0], v.temp, Of(ty), ns, ns, env, ps, ret);
      assert [] + [i.code[0]] == i.code;
    }
  }

  lemma {:induction false} TypedTest(c: W.Expr, sc: W.Scope, sigs: W.Sigs, temp: nat, l1: nat, l2: nat, ns: Names,
          ps: seq<IrParam>, ret: TypeRef)
    returns (more: Names)
    requires W.ExprOk(c, sc, sigs) && W.Converts(W.YieldOf(c, W.Plain(sc), sigs), I32) &&
             Holds(ns, temp, W.Plain(sc)) && ns.fns == sigs
    ensures var q := GenTest(c, W.Plain(sc), sigs, temp, l1, l2);
            More(ns, more) && Holds(more, q.temp, W.Plain(sc)) && CodeTyped(q.code, more, ps, ret)
  {
    hide Holds, CodeTyped, GenExpr, W.ExprOk, Ensured, W.Plain, W.Converts, W.YieldOf;
    var g := Ensured(GenExpr(c, W.Plain(sc), sigs, temp), I32);
    var mid := EnsuredTyped(c, I32, sc, sigs, temp, ns, ps, ret);
    var i, j := Icmp(g.temp, Ne, I32, g.v.op, Const(0)), CondBr(g.temp, l1, l2);
    AddTemp(mid, g.temp, g.temp, I1, W.Plain(sc));
    IsMore(g.v.op, Of(I32), mid, WithTemp(mid, g.temp, I1), ps);
    more := TypedDef(g.code, i, g.temp, I1, ns, mid, W.Plain(sc), ps, ret);
    TypedOne(j, more, ps, ret);
    TypedBoth(g.code + [i], [j], more, ps, ret);
    assert g.code + [i] + [j] == g.code + [i, j];
  }

  /** Labels and jumps around a piece need no types. */
  lemma {:induction false} TypedBranch(code: seq<Instr>, exits: bool, l: nat, target: nat, ns: Names,
          ps: seq<IrParam>, ret: TypeRef)
    requires CodeTyped(code, ns, ps, ret)
    ensures CodeTyped([Label(l)] + Closed(code, exits, target), ns, ps, ret)
  {
  }

  lemma {:induction false} TypedIf(s: W.Stmt, sc: W.Scope, sigs: W.Sigs, ret: TypeRef, temp: nat, lbl: nat, ns: Names,
          ps: seq<IrParam>)
    returns (more: Names)
    requires s.If? && W.CheckStmt(s, sc, sigs, ret).Some? && Holds(ns, temp, W.Plain(sc)) && ns.fns == sigs
    ensures StmtTyped(GenStmt(s, W.Plain(sc), sigs, ret, temp, lbl), ns, more, ps, ret)
    decreases s, 1
  {
    hide Holds, CodeTyped, GenTest, GenStmt, W.ExprOk, W.Plain, W.Converts, W.YieldOf, Is, Closed, W.Close;
    var env := W.Plain(sc);
    var q := GenTest(s.cond, env, sigs, temp, lbl, lbl + 1);
    IfCode(s, env, sigs, ret, temp, lbl);
    var t := GenStmt(s.thn, env, sigs, ret, q.temp, lbl + 3);
    var f := GenStmt(s.els, t.env, sigs, ret, t.temp, t.lbl);
    var c1 := W.CheckStmt(s.thn, sc, sigs, ret).value.sc;
    CheckTracksGen(s.thn, sc, sigs, ret, q.temp, lbl + 3);
    PlainClose(c1, |sc|);
    var n1 := TypedTest(s.cond, sc, sigs, temp, lbl, lbl + 1, ns, ps, ret);
    var n2 := TypedStmt(s.thn, sc, sigs, ret, q.temp, lbl + 3, n1, ps);
    more := TypedStmt(s.els, W.Close(c1, |sc|), sigs, ret, t.temp, t.lbl, n2, ps);
    MoreTrans(ns, n1, n2);
    MoreTrans(ns, n2, more);
    MoreTrans(n1, n2, more);
    TypedMore(q.code, n1, more, ps, ret);
    TypedMore(t.code, n2, more, ps, ret);
    var tb, fb := [Label(lbl)] + Closed(t.code, t.exits, lbl + 2), [Label(lbl + 1)] + Closed(f.code, f.exits, lbl + 2);
    var end := if t.exits && f.exits then [] else [Label(lbl + 2)];
    TypedBranch(t.code, t.exits, lbl, lbl + 2, more, ps, ret);
    TypedBranch(f.code, f.exits, lbl + 1, lbl + 2, more, ps, ret);
    TypedNone(more, ps, ret);
    TypedOne(Label(lbl + 2), more, ps, ret);
    TypedBoth(q.code, tb, more, ps, ret);
    TypedBoth(q.code + tb, fb, more, ps, ret);
    TypedBoth(q.code + tb + fb, end, more, ps, ret);
  }

  lemma {:induction false} TypedWhile(s: W.Stmt, sc: W.Scope, sigs: W.Sigs, ret: TypeRef, temp: nat, lbl: nat,
          ns: Names, ps: seq<IrParam>)
    returns (more: Names)
    requires s.While? && W.CheckStmt(s, sc, sigs, ret).Some? && Holds(ns, temp, W.Plain(sc)) && ns.fns == sigs
    ensures StmtTyped(GenStmt(s, W.Plain(sc), sigs, ret, temp, lbl), ns, more, ps, ret)
    decreases s, 1
  {
    hide Holds, CodeTyped, GenTest, GenStmt, W.ExprOk, W.Plain, W.Converts, W.YieldOf, Is, Closed;
    var env := W.Plain(sc);
    var q := GenTest(s.cond, env, sigs, temp, lbl + 1, lbl + 2);
    var b := GenStmt(s.body, env, sigs, ret, q.temp, lbl + 3);
    WhileParts(s, env, sigs, ret, temp, lbl);
    var n1 := TypedTest(s.cond, sc, sigs, temp, lbl + 1, lbl + 2, ns, ps, ret);
    more := TypedStmt(s.body, sc, sigs, ret, q.temp, lbl + 3, n1, ps);
    MoreTrans(ns, n1, more);
    TypedMore(q.code, n1, more, ps, ret);
    TypedBranch(b.code, b.exits, lbl + 1, lbl, more, ps, ret);
    TypedOne(Br(lbl), more, ps, ret);
    TypedOne(Label(lbl), more, ps, ret);
    TypedOne(Label(lbl + 2), more, ps, ret);
    TypedBoth([Br(lbl)], [Label(lbl)], more, ps, ret);
    assert [Br(lbl)] + [Label(lbl)] == [Br(lbl), Label(lbl)];
    var bb := [Label(lbl + 1)] + Closed(b.code, b.exits, lbl);
    TypedBoth([Br(lbl), Label(lbl)], q.code, more, ps, ret);
    TypedBoth([Br(lbl), Label(lbl)] + q.code, bb, more, ps, ret);
    TypedBoth([Br(lbl), Label(lbl)] + q.code + bb, [Label(lbl + 2)], more, ps, ret);
  }

  lemma {:induction false} TypedList(ss: seq<W.Stmt>, sc: W.Scope, sigs: W.Sigs, ret: TypeRef, temp: nat, lbl: nat,
          ns: Names, ps: seq<IrParam>)
    returns (more: Names)
    requires W.CheckList(ss, sc, sigs, ret).Some? && Holds(ns, temp, W.Plain(sc)) && ns.fns == sigs
    ensures StmtTyped(GenList(ss, W.Plain(sc), sigs, ret, temp, lbl), ns, more, ps, ret)
    decreases ss, 0
  {
    hide Holds, CodeTyped, GenStmt, W.CheckStmt, W.Plain, Is;
    TypedNone(ns, ps, ret);
    more := ns;
    if ss != [] {
      var h := GenStmt(ss[0], W.Plain(sc), sigs, ret, temp, lbl);
      var c := W.CheckStmt(ss[0], sc, sigs, ret).value.sc;
      CheckTracksGen(ss[0], sc, sigs, ret, temp, lbl);
      StmtShape(ss[0], W.Plain(sc), sigs, ret, temp, lbl);
      more := TypedStmt(ss[0], sc, sigs, ret, temp, lbl, ns, ps);
      if !h.exits {
        var mid := more;
        var t := GenList(ss[1..], h.env, sigs, ret, h.temp, h.lbl);
        more := TypedList(ss[1..], c, sigs, ret, h.temp, h.lbl, mid, ps);
        MoreTrans(ns, mid, more);
        TypedMore(h.code, mid, more, ps, ret);
        TypedBoth(h.code, t.code, more, ps, ret);
        if h.last.Some? {
          IsMore(h.last.value.op, Of(h.last.value.ty), mid, more, ps);
        }
      }
    }
  }

  // ---------- functions ----------

  function ParamCode(p: IrParam): seq<Instr> {
    [Alloca(p.name, p.ty), StoreSlot(p.ty, Param(p.name), p.name)]
  }

  lemma {:induction false} ParamTyped(q: seq<IrParam>, k: nat, ns: Names, ret: TypeRef)
    requires k < |q| && q[k].name in ns.slots && ns.slots[q[k].name] == q[k].ty
    ensures CodeTyped(ParamCode(q[k]), ns, q, ret)
  {
  }

  lemma {:induction false} TypedHeader(ps: seq<Entry>, k: nat, ret: TypeRef, sigs: W.Sigs) returns (ns: Names)
    requires Linking.DistinctNames(ps) && k <= |ps|
    ensures ns.fns == sigs && Holds(ns, 0, ps[..k]) && CodeTyped(GenHeader(ps[..k], ps), ns, GenParams(ps, ps), ret)
  {
    hide Holds, CodeTyped, SsaName, SsaOf;
    if k == 0 {
      ns := Names(map[], map[], sigs);
      NoNames(ps[..0], sigs);
      TypedNone(ns, GenParams(ps, ps), ret);
    } else {
      var e := ps[k - 1];
      var before := TypedHeader(ps, k - 1, ret, sigs);
      assert ps[..k][..k - 1] == ps[..k - 1] && ps[..k - 1] + [e] == ps[..k];
      Linking.FindDistinct(ps, k - 1);
      var ssa := SsaOf(ps, e.name);
      AddSlot(before, 0, e, ps[..k - 1]);
      ns := before.(slots := before.slots[SsaName(e.name, k - 1) := e.ty]);
      var q := GenParams(ps, ps);
      ParamTyped(q, k - 1, ns, ret);
      TypedMore(GenHeader(ps[..k - 1], ps), before, ns, q, ret);
      TypedBoth(GenHeader(ps[..k - 1], ps), ParamCode(q[k - 1]), ns, q, ret);
    }
  }

  lemma {:induction false} NoNames(env: seq<Entry>, sigs: W.Sigs)
    requires env == []
    ensures Holds(Names(map[], map[], sigs), 0, env)
  {
  }

  lemma {:induction false} TypedEnd(g: GenS, c: W.Checked, ret: TypeRef, ns: Names, ps: seq<IrParam>)
    returns (more: Names)
    requires !g.exits && SameLast(g, c) && Holds(ns, g.temp, g.env)
    requires g.last.Some? ==> Is(g.last.value.op, Of(g.last.value.ty), ns, ps)
    requires ret.Void? || c.last.None? || W.Converts(c.last.value, ret)
    ensures More(ns, more) && CodeTyped(GenEnd(g.last, ret, g.temp).code, more, ps, ret)
  {
    hide Holds, Ensure;
    more := ns;
    if ret.Void? || g.last.None? {
      TypedOne(GenEnd(g.last, ret, g.temp).code[0], ns, ps, ret);
    } else {
      var v := g.last.value;
      LastKnown(v, c.last.value, ret, g.temp);
      more := EnsureTyped(v, ret, g.temp, ns, g.env, ps, ret);
      var conv := Ensure(v, ret, g.temp);
      TypedOne(Ret(ret, conv.v.op), more, ps, ret);
      TypedBoth(conv.code, [Ret(ret, conv.v.op)], more, ps, ret);
    }
  }

  lemma {:induction false} LastKnown(v: GVal, y: W.Yield, ret: TypeRef, temp: nat)
    requires y.ty == v.ty && (y.zero ==> v == ZERO) && W.Converts(y, ret)
    ensures !Ensure(v, ret, temp).fatal
  {
  }

  /** Every function that obeys the rules is emitted well typed: each name is used at the type
      of its definition, and every instruction spells the types of its operands. */
  lemma {:induction false} EmittedIsTyped(fn: W.FnDef, sigs: W.Sigs, temp: nat, lbl: nat)
    requires W.FnOk(fn, sigs)
    ensures WellTyped(GenFn(fn, sigs, temp, lbl).fn, sigs)
  {
    hide Holds, CodeTyped, GenList, GenHeader, GenEnd, GenParams, W.CheckList, W.Plain, W.ParamScope, Is, W.Converts,
      SameLast;
    var ps := GenParams(fn.params, fn.params);
    var sc := W.ParamScope(fn.params);
    Simulation.PlainParams(fn.params);
    assert fn.params[..|fn.params|] == fn.params;
    var h := GenHeader(fn.params, fn.params);
    var n0 := TypedHeader(fn.params, |fn.params|, fn.ret, sigs);
    HoldsLater(n0, 0, temp, fn.params);
    var b := GenList(fn.body, fn.params, sigs, fn.ret, temp, lbl);
    var n1 := TypedList(fn.body, sc, sigs, fn.ret, temp, lbl, n0, ps);
    ListTracksGen(fn.body, sc, sigs, fn.ret, temp, lbl);
    ListShape(fn.body, fn.params, sigs, fn.ret, temp, lbl);
    var ns := n1;
    TypedNone(n1, ps, fn.ret);
    if !b.exits {
      ns := TypedEnd(b, W.CheckList(fn.body, sc, sigs, fn.ret).value, fn.ret, n1, ps);
    }
    var e := if b.exits then GenE([], ZERO, b.temp, false) else GenEnd(b.last, fn.ret, b.temp);
    MoreTrans(n0, n1, ns);
    TypedMore(h, n0, ns, ps, fn.ret);
    TypedMore(b.code, n1, ns, ps, fn.ret);
    TypedBoth(h, b.code, ns, ps, fn.ret);
    TypedBoth(h + b.code, e.code, ns, ps, fn.ret);
  }

  // ---------- modules ----------

  /** The emitted functions are those of the program, in its order and with its types. */
  lemma {:induction false} ModuleInOrder(p: W.Program, sigs: W.Sigs, temp: nat, lbl: nat)
    ensures var m := GenModule(p, sigs, temp, lbl).m;
            |m| == |p| && forall k :: 0 <= k < |p| ==> Emits(p[k], m[k])
  {
    hide GenFn;
    if p != [] {
      var f := GenFn(p[0], sigs, temp, lbl);
      var m := GenModule(p, sigs, temp, lbl).m;
      Simulation.GenFnSig(p[0], sigs, temp, lbl);
      ModuleInOrder(p[1..], sigs, f.temp, f.lbl);
      forall k | 0 <= k < |p| ensures Emits(p[k], m[k]) {
        if k > 0 {
          assert p[k] == p[1..][k - 1] && m[k] == m[1..][k - 1];
        }
      }
    }
  }

  predicate Emits(fn: W.FnDef, f: IrFn) {
    f.name == fn.name && f.ret == fn.ret && ParamTypes(f.params) == W.EntryTypes(fn.params)
  }

  lemma {:induction false} AllTyped(p: W.Program, sigs: W.Sigs, temp: nat, lbl: nat)
    requires forall k :: 0 <= k < |p| ==> W.FnOk(p[k], sigs)
    ensures var m := GenModule(p, sigs, temp, lbl).m; forall f :: f in m ==> WellTyped(f, sigs)
  {
    hide GenFn, W.FnOk, WellTyped;
    if p != [] {
      var f := GenFn(p[0], sigs, temp, lbl);
      EmittedIsTyped(p[0], sigs, temp, lbl);
      AllTyped(p[1..], sigs, f.temp, f.lbl);
    }
  }

  /** The signatures of the functions defined in a module. */
  ghost predicate Defines(m: Module, fns: W.Sigs) {
    (forall f :: f in fns <==> FindFn(m, f).Some?) &&
    forall f :: f in fns ==> fns[f] == W.Sig(FindFn(m, f).value.ret, ParamTypes(FindFn(m, f).value.params))
  }

  /** A program that obeys the rules is emitted as a well-typed module: its calls name defined
      functions and spell their types. */
  lemma {:induction false} ModuleIsTyped(p: W.Program, temp: nat, lbl: nat)
    requires W.ProgramOk(p)
    ensures var m := GenModule(p, W.SigsOf(p), temp, lbl).m;
            Defines(m, W.SigsOf(p)) && forall f :: f in m ==> WellTyped(f, W.SigsOf(p))
  {
    hide W.FnOk, W.SigsOf, GenModule, GenFn, WellTyped;
    var sigs := W.SigsOf(p);
    var m := GenModule(p, sigs, temp, lbl).m;
    AllTyped(p, sigs, temp, lbl);
    forall f ensures f in sigs <==> FindFn(m, f).Some?
             ensures f in sigs ==> sigs[f] == W.Sig(FindFn(m, f).value.ret, ParamTypes(FindFn(m, f).value.params))
    {
      Linking.SigsAgree(p, f);
      ModuleInOrder(p, sigs, temp, lbl);
      if f in sigs {
        var t, l := Linking.FindGen(p, sigs, temp, lbl, f);
        Simulation.GenFnSig(W.FindDef(p, f).value, sigs, t, l);
      } else {
        NotEmitted(p, m, f);
      }
    }
  }

  lemma {:induction false} NotEmitted(p: W.Program, m: Module, f: string)
    requires |m| == |p| && W.FindDef(p, f).None? && forall k :: 0 <= k < |p| ==> Emits(p[k], m[k])
    ensures FindFn(m, f).None?
  {
    if p != [] {
      assert Emits(p[0], m[0]);
      forall k | 0 <= k < |p[1..]| ensures Emits(p[1..][k], m[1..][k]) {
        assert Emits(p[k + 1], m[k + 1]);
      }
      NotEmitted(p[1..], m[1..], f);
    }
  }
}
