/** What stage0's code generator emits (expr.c, stmt.c, program.c), as functions of the
    source, the environment and the two counters.  `Codegen` proves that the imperative
    generator emits exactly this. */
module Gen {
  import opened Wrappers
  import opened Types
  import opened Env
  import opened Ir
  import W = Weave

  /** The Value record: a type and an operand. */
  datatype GVal = GVal(ty: TypeRef, op: Operand)

  const ZERO := GVal(I32, Const(0))

  /** Result of generating an expression.  `fatal` says that the C code stopped with a
      type-mismatch diagnostic. */
  datatype GenE = GenE(code: seq<Instr>, v: GVal, temp: nat, fatal: bool)
  datatype GenA = GenA(code: seq<Instr>, args: seq<Arg>, temp: nat, fatal: bool)
  datatype GenS = GenS(code: seq<Instr>, exits: bool, last: Option<GVal>, env: seq<Entry>,
                       temp: nat, lbl: nat, fatal: bool)

  function BinOpOf(o: W.ArithOp): BinOp {
    match o case Plus => Add case Minus => Sub case Times => Mul case Divide => SDiv
  }

  function PredOf(o: W.CmpOp): Pred {
    match o
    case Equal => Eq case NotEqual => Ne case Less => Slt
    case LessEq => Sle case Greater => Sgt case GreaterEq => Sge
  }

  function BoolOpOf(o: W.LogicOp): BoolOp {
    match o case Both => And case Either => Or
  }

  /** ensure_type_ctx_at: the conversions stage0 knows. */
  function Ensure(v: GVal, target: TypeRef, temp: nat): GenE {
    if v.ty == target then GenE([], v, temp, false)
    else if target.I8Ptr? && v == ZERO then
      GenE([NullToPtr(temp)], GVal(I8Ptr, Temp(temp)), temp + 1, false)
    else if target.I8Ptr? && v.ty.Ptr? then
      GenE([BitcastI8(temp, v.ty, v.op)], GVal(I8Ptr, Temp(temp)), temp + 1, false)
    else if target.I32? && (v.ty.Ptr? || v.ty.I8Ptr?) then
      GenE([PtrToInt(temp, v.ty, v.op)], GVal(I32, Temp(temp)), temp + 1, false)
    else GenE([], ZERO, temp, true)
  }

  /** Runs `g`, then converts its value. */
  function Ensured(g: GenE, target: TypeRef): GenE {
    var c := Ensure(g.v, target, g.temp);
    GenE(g.code + c.code, c.v, c.temp, g.fatal || c.fatal)
  }

  /** An operand: comparisons convert theirs later. */
  function OperandCode(op: W.Operator, g: GenE): GenE {
    if op.Cmp? then g else Ensured(g, I32)
  }

  /** cg_cmp after its operands: the two temps are taken before the conversions. */
  function GenCmp(o: W.CmpOp, l: GVal, r: GVal, temp: nat): GenE {
    var ty := W.OperandType(W.Cmp(o), l.ty, r.ty);
    var a := Ensure(l, ty, temp + 2);
    var b := Ensure(r, ty, a.temp);
    GenE(a.code + b.code + [Icmp(temp, PredOf(o), ty, a.v.op, b.v.op), Zext(temp + 1, Temp(temp))],
         GVal(I32, Temp(temp + 1)), b.temp, a.fatal || b.fatal)
  }

  /** The instructions of an operator, after those of its operands. */
  function GenTail(op: W.Operator, l: GVal, r: GVal, t: nat): GenE {
    match op
    case Arith(o) => GenE([Bin(t, BinOpOf(o), l.op, r.op)], GVal(I32, Temp(t)), t + 1, false)
    case Cmp(o) => GenCmp(o, l, r, t)
    case Logic(o) =>
      GenE([Icmp(t, Ne, I32, l.op, Const(0)), Icmp(t + 1, Ne, I32, r.op, Const(0)),
            BoolOp(t + 2, BoolOpOf(o), Temp(t), Temp(t + 1)), Zext(t + 3, Temp(t + 2))],
           GVal(I32, Temp(t + 3)), t + 4, false)
  }

  /** cg_arith, cg_cmp and cg_logic. */
  function GenBinary(e: W.Expr, env: seq<Entry>, sigs: W.Sigs, temp: nat): GenE
    requires e.Binary?
    decreases e, 1
  {
    var l := OperandCode(e.op, GenExpr(e.lhs, env, sigs, temp));
    var r := OperandCode(e.op, GenExpr(e.rhs, env, sigs, l.temp));
    var tail := GenTail(e.op, l.v, r.v, r.temp);
    GenE(l.code + r.code + tail.code, tail.v, tail.temp, l.fatal || r.fatal || tail.fatal)
  }

  /** cg_expr. */
  function GenExpr(e: W.Expr, env: seq<Entry>, sigs: W.Sigs, temp: nat): GenE
    decreases e, 2
  {
    match e
    case Const(n) => GenE([], GVal(I32, Const(n)), temp, false)
    case Var(x) =>
      (match TypeOf(env, x)
       case None => GenE([], ZERO, temp, false)
       case Some(ty) =>
         GenE([Load(temp, ty, Ptr(ty), Slot(SsaOf(env, x)))], GVal(ty, Temp(temp)), temp + 1, false))
    case Binary(_, _, _) => GenBinary(e, env, sigs, temp)
    case AddrOf(x) =>
      (match TypeOf(env, x)
       case None => GenE([], ZERO, temp, false)
       case Some(ty) => GenE([], GVal(Ptr(ty), Slot(SsaOf(env, x))), temp, false))
    case Deref(ty, p) =>
      var g := GenExpr(p, env, sigs, temp);
      GenE(g.code + [Load(g.temp, ty, g.v.ty, g.v.op)], GVal(ty, Temp(g.temp)), g.temp + 1,
           g.fatal || !g.v.ty.Ptr?)
    case CallFn(f, args) =>
      var a := GenArgs(args, f, 0, env, sigs, temp);
      var ret := RetType(sigs, f);
      if ret.Void? then GenE(a.code + [Call(None, Void, f, a.args)], ZERO, a.temp, a.fatal)
      else GenE(a.code + [Call(Some(a.temp), ret, f, a.args)], GVal(ret, Temp(a.temp)), a.temp + 1, a.fatal)
  }

  /** The parts of an operator's code. */
  lemma {:induction false} BinaryParts(e: W.Expr, env: seq<Entry>, sigs: W.Sigs, temp: nat)
    requires e.Binary?
    ensures var l := OperandCode(e.op, GenExpr(e.lhs, env, sigs, temp));
            var r := OperandCode(e.op, GenExpr(e.rhs, env, sigs, l.temp));
            var t := GenTail(e.op, l.v, r.v, r.temp);
            GenExpr(e, env, sigs, temp) ==
            GenE(l.code + r.code + t.code, t.v, t.temp, l.fatal || r.fatal || t.fatal)
  {
    hide Ensured, GenTail;
  }

  /** fn_table_ret_type and fn_table_param_type with stage0's default, i32. */
  function RetType(sigs: W.Sigs, f: string): TypeRef {
    if f in sigs then sigs[f].ret else I32
  }

  function ParamType(sigs: W.Sigs, f: string, i: nat): TypeRef {
    if f in sigs && i < |sigs[f].params| then sigs[f].params[i] else I32
  }

  function GenArgs(es: seq<W.Expr>, f: string, i: nat, env: seq<Entry>, sigs: W.Sigs, temp: nat): GenA
    decreases es, 0
  {
    if es == [] then GenA([], [], temp, false)
    else
      var ty := ParamType(sigs, f, i);
      var h := Ensured(GenExpr(es[0], env, sigs, temp), ty);
      var t := GenArgs(es[1..], f, i + 1, env, sigs, h.temp);
      GenA(h.code + t.code, [Arg(ty, h.v.op)] + t.args, t.temp, h.fatal || t.fatal)
  }

  /** A store through an alloca. */
  function StoreSlot(ty: TypeRef, v: Operand, ssa: string): Instr {
    Store(ty, v, Ptr(ty), Slot(ssa))
  }

  /** The test of an `if-stmt` or `while`, ending its block. */
  function GenTest(c: W.Expr, env: seq<Entry>, sigs: W.Sigs, temp: nat, l1: nat, l2: nat): GenE {
    var g := Ensured(GenExpr(c, env, sigs, temp), I32);
    GenE(g.code + [Icmp(g.temp, Ne, I32, g.v.op, Const(0)), CondBr(g.temp, l1, l2)], g.v, g.temp + 1, g.fatal)
  }

  /** A block body that continues at `l` unless it has left the function. */
  function Closed(code: seq<Instr>, exits: bool, l: nat): seq<Instr> {
    if exits then code else code + [Br(l)]
  }

  /** The load stage0 inserts when a `let` initialiser is a pointer to the declared type. */
  function GenInit(g: GenE, ty: TypeRef): GenE {
    if g.v.ty == Ptr(ty)
    then GenE([Load(g.temp, ty, g.v.ty, g.v.op)], GVal(ty, Temp(g.temp)), g.temp + 1, false)
    else GenE([], g.v, g.temp, false)
  }

  /** cg_stmt. */
  function GenStmt(s: W.Stmt, env: seq<Entry>, sigs: W.Sigs, ret: TypeRef, temp: nat, lbl: nat): GenS
    decreases s, 1
  {
    match s
    case Nop => GenS([], false, None, env, temp, lbl, false)
    case Return(e) =>
      var g := GenExpr(e, env, sigs, temp);
      GenS(g.code + [if ret.Void? then RetVoid else Ret(ret, g.v.op)], true, Some(g.v), env, g.temp, lbl, g.fatal)
    case StoreTo(ty, p, e) =>
      var q := GenExpr(p, env, sigs, temp);
      var g := Ensured(GenExpr(e, env, sigs, q.temp), ty);
      GenS(q.code + g.code + [Store(ty, g.v.op, q.v.ty, q.v.op)], false, None, env, g.temp, lbl,
           q.fatal || g.fatal)
    case Let(x, ty, e, rest) =>
      var g := GenExpr(e, env, sigs, temp);
      var env' := env + [Entry(x, ty)];
      var ssa := SsaOf(env', x);
      var i := GenInit(g, ty);
      var r := GenList(rest, env', sigs, ret, i.temp, lbl);
      GenS(g.code + [Alloca(ssa, ty)] + i.code + [StoreSlot(ty, i.v.op, ssa)] + r.code,
           r.exits, r.last, r.env, r.temp, r.lbl, g.fatal || r.fatal)
    case Set(x, e) =>
      var g := GenExpr(e, env, sigs, temp);
      var ty := (match TypeOf(env, x) case None => I32 case Some(t) => t);
      GenS(g.code + [StoreSlot(ty, g.v.op, SsaOf(env, x))], false, None, env, g.temp, lbl, g.fatal)
    case Do(ss) => GenList(ss, env, sigs, ret, temp, lbl)
    case If(c, thn, els) =>
      var g := GenTest(c, env, sigs, temp, lbl, lbl + 1);
      var t := GenStmt(thn, env, sigs, ret, g.temp, lbl + 3);
      var f := GenStmt(els, t.env, sigs, ret, t.temp, t.lbl);
      GenS(g.code
           + ([Label(lbl)] + Closed(t.code, t.exits, lbl + 2))
           + ([Label(lbl + 1)] + Closed(f.code, f.exits, lbl + 2))
           + (if t.exits && f.exits then [] else [Label(lbl + 2)]),
           t.exits && f.exits, None, f.env, f.temp, f.lbl, g.fatal || t.fatal || f.fatal)
    case While(c, body) =>
      var g := GenTest(c, env, sigs, temp, lbl + 1, lbl + 2);
      var b := GenStmt(body, env, sigs, ret, g.temp, lbl + 3);
      GenS([Br(lbl), Label(lbl)] + g.code
           + ([Label(lbl + 1)] + Closed(b.code, b.exits, lbl))
           + [Label(lbl + 2)],
           false, None, b.env, b.temp, b.lbl, g.fatal || b.fatal)
    case Eval(e) =>
      var g := GenExpr(e, env, sigs, temp);
      GenS(g.code, false, Some(g.v), env, g.temp, lbl, g.fatal)
  }

  /** The four parts of an `if-stmt`. */
  lemma {:induction false} IfCode(s: W.Stmt, env: seq<Entry>, sigs: W.Sigs, ret: TypeRef, temp: nat, lbl: nat)
    requires s.If?
    ensures var q := GenTest(s.cond, env, sigs, temp, lbl, lbl + 1);
            var t := GenStmt(s.thn, env, sigs, ret, q.temp, lbl + 3);
            var f := GenStmt(s.els, t.env, sigs, ret, t.temp, t.lbl);
            var x := t.exits && f.exits;
            GenStmt(s, env, sigs, ret, temp, lbl) ==
            GenS(q.code + ([Label(lbl)] + Closed(t.code, t.exits, lbl + 2))
                 + ([Label(lbl + 1)] + Closed(f.code, f.exits, lbl + 2)) + (if x then [] else [Label(lbl + 2)]),
                 x, None, f.env, f.temp, f.lbl, q.fatal || t.fatal || f.fatal)
  {
    hide GenTest, Closed;
  }

  /** The parts of a loop. */
  lemma {:induction false} WhileParts(s: W.Stmt, env: seq<Entry>, sigs: W.Sigs, ret: TypeRef, temp: nat, lbl: nat)
    requires s.While?
    ensures var q := GenTest(s.cond, env, sigs, temp, lbl + 1, lbl + 2);
            var b := GenStmt(s.body, env, sigs, ret, q.temp, lbl + 3);
            GenStmt(s, env, sigs, ret, temp, lbl) ==
            GenS([Br(lbl), Label(lbl)] + q.code + ([Label(lbl + 1)] + Closed(b.code, b.exits, lbl)) + [Label(lbl + 2)],
                 false, None, b.env, b.temp, b.lbl, q.fatal || b.fatal)
  {
    hide GenTest, Closed;
  }

  /** The statement loops of `do`, `let` and `body`: they stop at the first exit. */
  function GenList(ss: seq<W.Stmt>, env: seq<Entry>, sigs: W.Sigs, ret: TypeRef, temp: nat, lbl: nat): GenS
    decreases ss, 0
  {
    if ss == [] then GenS([], false, None, env, temp, lbl, false)
    else
      var h := GenStmt(ss[0], env, sigs, ret, temp, lbl);
      if h.exits then h.(last := None)
      else
        var t := GenList(ss[1..], h.env, sigs, ret, h.temp, h.lbl);
        GenS(h.code + t.code, t.exits,
             if t.exits then None else if t.last.Some? then t.last else h.last,
             t.env, t.temp, t.lbl, h.fatal || t.fatal)
  }

  /** emit_fn_header: each parameter gets an alloca holding its incoming value. */
  function GenHeader(ps: seq<Entry>, env: seq<Entry>): seq<Instr> {
    if ps == [] then []
    else
      var p := ps[|ps| - 1];
      var ssa := SsaOf(env, p.name);
      GenHeader(ps[..|ps| - 1], env) + [Alloca(ssa, p.ty), StoreSlot(p.ty, Param(ssa), ssa)]
  }

  function GenParams(ps: seq<Entry>, env: seq<Entry>): (r: seq<IrParam>)
    ensures |r| == |ps|
    ensures forall k :: 0 <= k < |r| ==> r[k] == IrParam(SsaOf(env, ps[k].name), ps[k].ty)
  {
    if ps == [] then []
    else GenParams(ps[..|ps| - 1], env) + [IrParam(SsaOf(env, ps[|ps| - 1].name), ps[|ps| - 1].ty)]
  }

  /** emit_default_return. */
  function DefaultRet(ret: TypeRef): Instr {
    match ret
    case Void => RetVoid
    case I32 => Ret(ret, Const(0))
    case I8Ptr => Ret(ret, NullOp)
    case Ptr(_) => Ret(ret, NullOp)
    case Struct(_) => Ret(ret, ZeroInit)
  }

  /** The end of a body that does not exit: the implicit return. */
  function GenEnd(last: Option<GVal>, ret: TypeRef, temp: nat): GenE {
    if ret.Void? then GenE([RetVoid], ZERO, temp, false)
    else match last
         case Some(v) =>
           var g := Ensure(v, ret, temp);
           GenE(g.code + [Ret(ret, g.v.op)], g.v, g.temp, g.fatal)
         case None => GenE([DefaultRet(ret)], ZERO, temp, false)
  }

  datatype GenF = GenF(fn: IrFn, temp: nat, lbl: nat, fatal: bool)

  /** compile_fn_form. */
  function GenFn(fn: W.FnDef, sigs: W.Sigs, temp: nat, lbl: nat): GenF {
    var b := GenList(fn.body, fn.params, sigs, fn.ret, temp, lbl);
    var e := if b.exits then GenE([], ZERO, b.temp, false) else GenEnd(b.last, fn.ret, b.temp);
    GenF(IrFn(fn.name, fn.ret, GenParams(fn.params, fn.params),
              GenHeader(fn.params, fn.params) + b.code + e.code),
         e.temp, b.lbl, b.fatal || e.fatal)
  }

  datatype GenM = GenM(m: Module, temp: nat, lbl: nat, fatal: bool)

  /** The emission pass of compile_to_llvm_ir: the counters run on from one function to
      the next. */
  function GenModule(p: W.Program, sigs: W.Sigs, temp: nat, lbl: nat): GenM {
    if p == [] then GenM([], temp, lbl, false)
    else
      var f := GenFn(p[0], sigs, temp, lbl);
      var r := GenModule(p[1..], sigs, f.temp, f.lbl);
      GenM([f.fn] + r.m, r.temp, r.lbl, f.fatal || r.fatal)
  }
}
