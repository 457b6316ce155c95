/** The generated code behaves like the source.

    Each lemma runs the emitted code for as many steps as the source needs and tells where
    the machine is then: behind the code with the value at hand, stuck exactly when the
    source is, or still running after at least `fuel` steps when the source has not
    finished within its fuel. */
module Simulation {
  import opened Wrappers
  import opened Types
  import opened Values
  import opened Env
  import opened Ir
  import opened Gen
  import opened Blocks
  import opened Scoping
  import opened Machine
  import opened Linking
  import W = Weave

  /** Everything that stays fixed while one function body runs. */
  datatype World = World(p: W.Program, m: Module, callers: seq<Frame>)

  /** The result of evaluating an expression or arguments, told to the machine. */
  ghost predicate Failed<T>(w: World, fr: Frame, mem: Memory, n: nat, r: W.Res<T>, fuel: nat) {
    var s := Iter(w.m, Running(fr, w.callers, mem), n);
    match r
    case Ok(_) => false
    case Stuck(_) => s == Wrong
    case Timeout => n >= fuel && s.Running?
  }

  /** A failure after a successful start is a failure of the whole. */
  lemma {:induction false} FailedLater<T, U>(w: World, fr: Frame, mem: Memory, n: nat, fr1: Frame, mem1: Memory,
          k: nat, r: W.Res<T>, r': W.Res<U>, fuel: nat)
    requires Iter(w.m, Running(fr, w.callers, mem), n) == Running(fr1, w.callers, mem1)
    requires Failed(w, fr1, mem1, k, r, fuel)
    requires r'.Stuck? == r.Stuck? && r'.Timeout? == r.Timeout?
    ensures Failed(w, fr, mem, n + k, r', fuel)
  {
    IterPlus(w.m, Running(fr, w.callers, mem), n, k);
  }

  /** The same failure, seen from the enclosing construct. */
  lemma {:induction false} FailedAlso<T, U>(w: World, fr: Frame, mem: Memory, n: nat, r: W.Res<T>, r': W.Res<U>,
          fuel: nat)
    requires Failed(w, fr, mem, n, r, fuel) && r'.Stuck? == r.Stuck? && r'.Timeout? == r.Timeout?
    ensures Failed(w, fr, mem, n, r', fuel)
  {
  }

  /** The machine is behind the code of an expression, its value at hand. */
  ghost predicate ExprDone(w: World, fr: Frame, mem: Memory, n: nat, fr': Frame, g: GenE, temp: nat, depth: nat,
          vm: W.ValMem)
  {
    Iter(w.m, Running(fr, w.callers, mem), n) == Running(fr', w.callers, vm.mem) && Moved(fr, fr', |g.code|, temp) &&
    EvalOp(g.v.op, fr') == Some(vm.v) && Fits(vm.v, g.v.ty) && Settled(g.v.op, g.temp, depth)
  }

  ghost predicate ExprEnds(w: World, fr: Frame, mem: Memory, n: nat, fr': Frame, g: GenE, temp: nat, depth: nat,
          r: W.Res<W.ValMem>, fuel: nat)
  {
    if r.Ok? then ExprDone(w, fr, mem, n, fr', g, temp, depth, r.v) else Failed(w, fr, mem, n, r, fuel)
  }

  /** The machine is at the code of `e`, in a function whose variables are those of `b`. */
  ghost predicate Ready(w: World, sc: W.Scope, b: W.Bindings, fr: Frame, code: seq<Instr>) {
    Linked(w.p, w.m) && Rel(sc, b, fr.slots) && At(fr.fn.code, fr.pc, code)
  }

  lemma {:induction false} SimExpr(w: World, e: W.Expr, sc: W.Scope, b: W.Bindings, fr: Frame, mem: Memory, temp: nat,
          fuel: nat)
    returns (n: nat, fr': Frame)
    requires Ready(w, sc, b, fr, GenExpr(e, W.Plain(sc), W.SigsOf(w.p), temp).code)
    requires W.ExprOk(e, sc, W.SigsOf(w.p))
    ensures ExprEnds(w, fr, mem, n, fr', GenExpr(e, W.Plain(sc), W.SigsOf(w.p), temp), temp, |sc|,
                     W.EvalExpr(w.p, e, b, mem, fuel), fuel)
    decreases fuel, e, 1
  {
    hide *;
    match e
    case Const(_) => n, fr' := SimLeaf(w, e, sc, b, fr, mem, temp, fuel);
    case Var(x) => n, fr' := SimVar(w, e, sc, b, fr, mem, temp, fuel);
    case Binary(_, _, _) => n, fr' := SimBinary(w, e, sc, b, fr, mem, temp, fuel);
    case AddrOf(x) => n, fr' := SimLeaf(w, e, sc, b, fr, mem, temp, fuel);
    case Deref(_, _) => n, fr' := SimDeref(w, e, sc, b, fr, mem, temp, fuel);
    case CallFn(_, _) => n, fr' := SimCall(w, e, sc, b, fr, mem, temp, fuel);
  }

  /** Constants and addresses need no code. */
  lemma {:induction false} SimLeaf(w: World, e: W.Expr, sc: W.Scope, b: W.Bindings, fr: Frame, mem: Memory, temp: nat,
          fuel: nat)
    returns (n: nat, fr': Frame)
    requires e.Const? || e.AddrOf?
    requires Ready(w, sc, b, fr, GenExpr(e, W.Plain(sc), W.SigsOf(w.p), temp).code)
    requires W.ExprOk(e, sc, W.SigsOf(w.p))
    ensures ExprEnds(w, fr, mem, n, fr', GenExpr(e, W.Plain(sc), W.SigsOf(w.p), temp), temp, |sc|,
                     W.EvalExpr(w.p, e, b, mem, fuel), fuel)
  {
    hide Step, Rel, SsaName, Linked, Find;
    n, fr' := 0, fr;
    if e.AddrOf? {
      RelLookup(sc, b, fr.slots, e.x);
    }
  }

  lemma {:induction false} SimVar(w: World, e: W.Expr, sc: W.Scope, b: W.Bindings, fr: Frame, mem: Memory, temp: nat,
          fuel: nat)
    returns (n: nat, fr': Frame)
    requires e.Var? && Ready(w, sc, b, fr, GenExpr(e, W.Plain(sc), W.SigsOf(w.p), temp).code)
    requires W.ExprOk(e, sc, W.SigsOf(w.p))
    ensures ExprEnds(w, fr, mem, n, fr', GenExpr(e, W.Plain(sc), W.SigsOf(w.p), temp), temp, |sc|,
                     W.EvalExpr(w.p, e, b, mem, fuel), fuel)
  {
    hide Step, Iter, Rel, SsaName, Linked, Find;
    ZeroSteps(w, fr, mem);
    var g := GenExpr(e, W.Plain(sc), W.SigsOf(w.p), temp);
    RelLookup(sc, b, fr.slots, e.x);
    n, fr' := 0, fr;
    if g.code != [] {
      var v := W.Lookup(b, e.x).value;
      AtHead(fr.fn.code, fr.pc, g.code, 0);
      var r := Read(mem, Pointer(v.loc), v.ty);
      n := 1;
      RunDefine(w.m, fr, w.callers, mem, g.code[0], temp, r);
      if r.Some? {
        fr' := Put(fr, temp, r.value);
        PutKeeps(fr, temp, r.value, Const(0));
      }
    }
  }

  lemma {:induction false} SimDeref(w: World, e: W.Expr, sc: W.Scope, b: W.Bindings, fr: Frame, mem: Memory,
          temp: nat, fuel: nat)
    returns (n: nat, fr': Frame)
    requires e.Deref? && Ready(w, sc, b, fr, GenExpr(e, W.Plain(sc), W.SigsOf(w.p), temp).code)
    requires W.ExprOk(e, sc, W.SigsOf(w.p))
    ensures ExprEnds(w, fr, mem, n, fr', GenExpr(e, W.Plain(sc), W.SigsOf(w.p), temp), temp, |sc|,
                     W.EvalExpr(w.p, e, b, mem, fuel), fuel)
    decreases fuel, e, 0
  {
    hide Step, Iter, Rel, SsaName, Linked, W.EvalExpr, GenExpr, At, W.ExprOk, Fits;
    DerefEval(w.p, e, b, mem, fuel);
    DerefCode(e, sc, W.SigsOf(w.p), temp);
    var q := GenExpr(e.p, W.Plain(sc), W.SigsOf(w.p), temp);
    var i := Load(q.temp, e.ty, q.v.ty, q.v.op);
    AtAppend(fr.fn.code, fr.pc, q.code, [i]);
    n, fr' := SimExpr(w, e.p, sc, b, fr, mem, temp, fuel);
    var r := W.EvalExpr(w.p, e.p, b, mem, fuel);
    if r.Ok? {
      AtCall(fr', i);
      var x := Read(r.v.mem, r.v.v, e.ty);
      RunDefine(w.m, fr', w.callers, r.v.mem, i, q.temp, x);
      ReadFits(r.v.mem, r.v.v, e.ty);
      IterPlus(w.m, Running(fr, w.callers, mem), n, 1);
      n := n + 1;
      if x.Some? {
        var f := fr';
        fr' := Put(f, q.temp, x.value);
        PutKeeps(f, q.temp, x.value, Const(0));
        ExprShape(e.p, W.Plain(sc), W.SigsOf(w.p), temp);
        MovedTrans(fr, f, fr', |q.code|, 1, temp, q.temp);
      }
    }
  }

  lemma {:induction false} DerefEval(p: W.Program, e: W.Expr, b: W.Bindings, mem: Memory, fuel: nat)
    requires e.Deref?
    ensures var a := W.EvalExpr(p, e.p, b, mem, fuel);
            var r := W.EvalExpr(p, e, b, mem, fuel);
            if !a.Ok? then r == a
            else
              var v := Read(a.v.mem, a.v.v, e.ty);
              if v.None? then r.Stuck? else r == W.Ok(W.VM(v.value, a.v.mem))
  {
    hide Read;
  }

  lemma {:induction false} DerefCode(e: W.Expr, sc: W.Scope, sigs: W.Sigs, temp: nat)
    requires e.Deref? && W.ExprOk(e, sc, sigs)
    ensures var q := GenExpr(e.p, W.Plain(sc), sigs, temp);
            var g := GenExpr(e, W.Plain(sc), sigs, temp);
            W.ExprOk(e.p, sc, sigs) && q.v.ty == Ptr(e.ty) &&
            g.code == q.code + [Load(q.temp, e.ty, q.v.ty, q.v.op)] &&
            g.v == GVal(e.ty, Temp(q.temp)) && g.temp == q.temp + 1
  {
    GenType(e.p, W.Plain(sc), sigs, temp);
  }

  // ---------- conversions ----------

  /** What the rules know of a value holds at run time. */
  lemma {:induction false} YieldHolds(e: W.Expr, env: seq<Entry>, sigs: W.Sigs, temp: nat, ty: TypeRef, fr: Frame,
          v: Value)
    requires W.Converts(W.YieldOf(e, env, sigs), ty)
    requires var g := GenExpr(e, env, sigs, temp); EvalOp(g.v.op, fr) == Some(v) && Fits(v, g.v.ty)
    ensures Convertible(GenExpr(e, env, sigs, temp).v, v, ty)
  {
    hide GenExpr, W.ExprType;
    GenType(e, env, sigs, temp);
    if W.IsZero(e, env, sigs) {
      GenZero(e, env, sigs, temp);
    }
  }

  /** An expression whose value is wanted at a type. */
  lemma {:induction false} SimEnsured(w: World, e: W.Expr, ty: TypeRef, sc: W.Scope, b: W.Bindings, fr: Frame,
          mem: Memory, temp: nat, fuel: nat)
    returns (n: nat, fr': Frame)
    requires Ready(w, sc, b, fr, Ensured(GenExpr(e, W.Plain(sc), W.SigsOf(w.p), temp), ty).code)
    requires W.ExprOk(e, sc, W.SigsOf(w.p)) && W.Converts(W.YieldOf(e, W.Plain(sc), W.SigsOf(w.p)), ty)
    ensures ExprEnds(w, fr, mem, n, fr', Ensured(GenExpr(e, W.Plain(sc), W.SigsOf(w.p), temp), ty), temp, |sc|,
                     W.Coerced(W.EvalExpr(w.p, e, b, mem, fuel), ty), fuel)
    ensures W.EvalExpr(w.p, e, b, mem, fuel).Ok? ==>
              Ensured(GenExpr(e, W.Plain(sc), W.SigsOf(w.p), temp), ty).v.ty == ty
    decreases fuel, e, 2
  {
    hide Step, Iter, Rel, SsaName, Linked, At, W.EvalExpr, GenExpr, W.ExprOk, W.SigsOf, EvalOp, Fits, Ensure,
      W.Coerce, Convertible, W.Converts, W.YieldOf;
    var env, sigs := W.Plain(sc), W.SigsOf(w.p);
    var g := GenExpr(e, env, sigs, temp);
    var c := Ensure(g.v, ty, g.temp);
    AtAppend(fr.fn.code, fr.pc, g.code, c.code);
    n, fr' := SimExpr(w, e, sc, b, fr, mem, temp, fuel);
    var r := W.EvalExpr(w.p, e, b, mem, fuel);
    if r.Ok? {
      var n1, f1 := n, fr';
      YieldHolds(e, env, sigs, temp, ty, f1, r.v.v);
      var n2, f2 := SimEnsure(w.m, f1, w.callers, r.v.mem, g.v, r.v.v, ty, g.temp);
      IterPlus(w.m, Running(fr, w.callers, mem), n1, n2);
      ExprShape(e, env, sigs, temp);
      MovedTrans(fr, f1, f2, |g.code|, |c.code|, temp, g.temp);
      n, fr' := n1 + n2, f2;
    } else {
      FailedAlso(w, fr, mem, n, r, W.Coerced(r, ty), fuel);
    }
  }

  lemma {:induction false} ReadFits(m: Memory, a: Value, ty: TypeRef)
    ensures Read(m, a, ty).Some? ==> Fits(Read(m, a, ty).value, ty)
  {
  }

  /** An operand: comparisons convert theirs later. */
  lemma {:induction false} SimOperand(w: World, op: W.Operator, e: W.Expr, sc: W.Scope, b: W.Bindings, fr: Frame,
          mem: Memory, temp: nat, fuel: nat)
    returns (n: nat, fr': Frame)
    requires Ready(w, sc, b, fr, OperandCode(op, GenExpr(e, W.Plain(sc), W.SigsOf(w.p), temp)).code)
    requires W.ExprOk(e, sc, W.SigsOf(w.p))
    requires op.Cmp? || W.Converts(W.YieldOf(e, W.Plain(sc), W.SigsOf(w.p)), I32)
    ensures ExprEnds(w, fr, mem, n, fr', OperandCode(op, GenExpr(e, W.Plain(sc), W.SigsOf(w.p), temp)), temp, |sc|,
                     W.Taken(op, W.EvalExpr(w.p, e, b, mem, fuel)), fuel)
    ensures W.Taken(op, W.EvalExpr(w.p, e, b, mem, fuel)).Ok? && !op.Cmp? ==>
              OperandCode(op, GenExpr(e, W.Plain(sc), W.SigsOf(w.p), temp)).v.ty == I32
    decreases fuel, e, 3
  {
    hide ExprEnds, Ready, GenExpr, Ensured, W.EvalExpr, W.Coerce, W.ExprOk, W.SigsOf, W.Converts, W.YieldOf;
    if op.Cmp? {
      n, fr' := SimExpr(w, e, sc, b, fr, mem, temp, fuel);
    } else {
      n, fr' := SimEnsured(w, e, I32, sc, b, fr, mem, temp, fuel);
    }
  }

  lemma {:induction false} SimBinary(w: World, e: W.Expr, sc: W.Scope, b: W.Bindings, fr: Frame, mem: Memory,
          temp: nat, fuel: nat)
    returns (n: nat, fr': Frame)
    requires e.Binary? && Ready(w, sc, b, fr, GenExpr(e, W.Plain(sc), W.SigsOf(w.p), temp).code)
    requires W.ExprOk(e, sc, W.SigsOf(w.p))
    ensures ExprEnds(w, fr, mem, n, fr', GenExpr(e, W.Plain(sc), W.SigsOf(w.p), temp), temp, |sc|,
                     W.EvalExpr(w.p, e, b, mem, fuel), fuel)
    decreases fuel, e, 0
  {
    hide Step, Iter, Rel, SsaName, Linked, GenTail, W.Apply, At, W.EvalExpr, GenExpr, W.ExprOk, W.SigsOf, OperandCode,
      W.Taken, W.Converts, OperandValues;
    var env, sigs := W.Plain(sc), W.SigsOf(w.p);
    OperandsChecked(e, sc, sigs);
    BinaryEval(w.p, e, b, mem, fuel);
    var g := GenExpr(e, env, sigs, temp);
    var l := OperandCode(e.op, GenExpr(e.lhs, env, sigs, temp));
    var r := OperandCode(e.op, GenExpr(e.rhs, env, sigs, l.temp));
    var t := GenTail(e.op, l.v, r.v, r.temp);
    BinaryParts(e, env, sigs, temp);
    AtAppend(fr.fn.code, fr.pc, l.code + r.code, t.code);
    AtAppend(fr.fn.code, fr.pc, l.code, r.code);
    var s0 := Running(fr, w.callers, mem);
    n, fr' := SimOperand(w, e.op, e.lhs, sc, b, fr, mem, temp, fuel);
    var a := W.Taken(e.op, W.EvalExpr(w.p, e.lhs, b, mem, fuel));
    if a.Ok? {
      var n1, f1 := n, fr';
      var n2, f2 := SimOperand(w, e.op, e.rhs, sc, b, f1, a.v.mem, l.temp, fuel);
      var c := W.Taken(e.op, W.EvalExpr(w.p, e.rhs, b, a.v.mem, fuel));
      n := n1 + n2;
      IterPlus(w.m, s0, n1, n2);
      if c.Ok? {
        OperandShape(e.op, e.lhs, env, sigs, temp);
        OperandShape(e.op, e.rhs, env, sigs, l.temp);
        MovedOp(l.v.op, f1, f2, |r.code|, l.temp, a.v.v);
        OperandsFit(e, env, sigs, temp, f2, a.v.v, c.v.v);
        var n3, f3 := SimTail(w.m, f2, w.callers, c.v.mem, e.op, l.v, r.v, a.v.v, c.v.v, r.temp);
        IterPlus(w.m, s0, n1 + n2, n3);
        n, fr' := n1 + n2 + n3, f3;
        if W.Apply(e.op, a.v.v, c.v.v).Some? {
          MovedTrans(fr, f1, f2, |l.code|, |r.code|, temp, l.temp);
          MovedTrans(fr, f2, f3, |l.code| + |r.code|, |t.code|, temp, r.temp);
          TailSettled(e.op, l.v, r.v, r.temp);
        }
      }
    }
  }

  lemma {:induction false} OperandsChecked(e: W.Expr, sc: W.Scope, sigs: W.Sigs)
    requires e.Binary? && W.ExprOk(e, sc, sigs)
    ensures W.ExprOk(e.lhs, sc, sigs) && W.ExprOk(e.rhs, sc, sigs)
    ensures W.OperandsOk(e.op, e.lhs, e.rhs, W.Plain(sc), sigs)
    ensures e.op.Cmp? || (W.Converts(W.YieldOf(e.lhs, W.Plain(sc), sigs), I32) &&
                          W.Converts(W.YieldOf(e.rhs, W.Plain(sc), sigs), I32))
  {
    hide W.Converts, W.YieldOf;
  }

  lemma {:induction false} BinaryEval(p: W.Program, e: W.Expr, b: W.Bindings, mem: Memory, fuel: nat)
    requires e.Binary?
    ensures var a := W.Taken(e.op, W.EvalExpr(p, e.lhs, b, mem, fuel));
            var r := W.EvalExpr(p, e, b, mem, fuel);
            if !a.Ok? then r == a
            else
              var c := W.Taken(e.op, W.EvalExpr(p, e.rhs, b, a.v.mem, fuel));
              if !c.Ok? then r == c
              else
                var v := W.Apply(e.op, a.v.v, c.v.v);
                if v.None? then r.Stuck? else r == W.Ok(W.VM(v.value, c.v.mem))
  {
    hide W.Apply, W.Taken;
  }

  lemma {:induction false} OperandShape(op: W.Operator, e: W.Expr, env: seq<Entry>, sigs: W.Sigs, temp: nat)
    ensures temp <= OperandCode(op, GenExpr(e, env, sigs, temp)).temp
  {
    hide GenExpr, Ensure;
    ExprShape(e, env, sigs, temp);
    EnsuredShape(GenExpr(e, env, sigs, temp), I32, temp);
  }

  /** The operands at hand are ones the operator can be compiled for. */
  lemma {:induction false} OperandsFit(e: W.Expr, env: seq<Entry>, sigs: W.Sigs, temp: nat, fr: Frame, a: Value,
          c: Value)
    requires e.Binary? && W.OperandsOk(e.op, e.lhs, e.rhs, env, sigs)
    requires var l := OperandCode(e.op, GenExpr(e.lhs, env, sigs, temp));
             var r := OperandCode(e.op, GenExpr(e.rhs, env, sigs, l.temp));
             EvalOp(l.v.op, fr) == Some(a) && Fits(a, l.v.ty) && EvalOp(r.v.op, fr) == Some(c) && Fits(c, r.v.ty) &&
             (!e.op.Cmp? ==> l.v.ty == I32 && r.v.ty == I32)
    ensures var l := OperandCode(e.op, GenExpr(e.lhs, env, sigs, temp));
            var r := OperandCode(e.op, GenExpr(e.rhs, env, sigs, l.temp));
            OperandValues(e.op, l.v, r.v, a, c)
  {
    hide GenExpr, Ensured, W.Converts, W.YieldOf, Convertible, EvalOp, W.OperandType;
    if e.op.Cmp? {
      var l := GenExpr(e.lhs, env, sigs, temp);
      var r := GenExpr(e.rhs, env, sigs, l.temp);
      GenType(e.lhs, env, sigs, temp);
      GenType(e.rhs, env, sigs, l.temp);
      var ty := W.OperandType(e.op, l.v.ty, r.v.ty);
      YieldTypes(e.lhs, env, sigs);
      YieldTypes(e.rhs, env, sigs);
      YieldHolds(e.lhs, env, sigs, temp, ty, fr, a);
      YieldHolds(e.rhs, env, sigs, l.temp, ty, fr, c);
    }
  }

  lemma {:induction false} YieldTypes(e: W.Expr, env: seq<Entry>, sigs: W.Sigs)
    ensures W.YieldOf(e, env, sigs).ty == W.ExprType(e, env, sigs)
  {
  }

  lemma {:induction false} TailSettled(op: W.Operator, l: GVal, r: GVal, t: nat)
    ensures var g := GenTail(op, l, r, t); g.v.ty.I32? && g.v.op.Temp? && t <= g.v.op.t < g.temp
  {
    TailShape(op, l, r, t);
  }

  // ---------- calls ----------

  /** The machine is behind the code of the arguments, their values at hand. */
  ghost predicate ArgsDone(w: World, fr: Frame, mem: Memory, n: nat, fr': Frame, g: GenA, temp: nat, vm: W.ValsMem,
          tys: seq<TypeRef>)
  {
    Iter(w.m, Running(fr, w.callers, mem), n) == Running(fr', w.callers, vm.mem) && Moved(fr, fr', |g.code|, temp) &&
    EvalArgs(g.args, fr') == Some(W.CoerceAll(vm.vs, tys)) && ArgTypes(g.args) == tys &&
    W.FitAll(W.CoerceAll(vm.vs, tys), tys)
  }

  ghost predicate ArgsEnd(w: World, fr: Frame, mem: Memory, n: nat, fr': Frame, g: GenA, temp: nat,
          r: W.Res<W.ValsMem>, fuel: nat, tys: seq<TypeRef>)
  {
    if r.Ok? then ArgsDone(w, fr, mem, n, fr', g, temp, r.v, tys) else Failed(w, fr, mem, n, r, fuel)
  }

  lemma {:induction false} SimArgs(w: World, es: seq<W.Expr>, f: string, i: nat, sc: W.Scope, b: W.Bindings,
          fr: Frame, mem: Memory, temp: nat, fuel: nat)
    returns (n: nat, fr': Frame)
    requires f in W.SigsOf(w.p) && i <= |W.SigsOf(w.p)[f].params|
    requires Ready(w, sc, b, fr, GenArgs(es, f, i, W.Plain(sc), W.SigsOf(w.p), temp).code)
    requires W.ArgsOk(es, W.SigsOf(w.p)[f].params[i..], sc, W.SigsOf(w.p))
    ensures ArgsEnd(w, fr, mem, n, fr', GenArgs(es, f, i, W.Plain(sc), W.SigsOf(w.p), temp), temp,
                    W.EvalList(w.p, es, b, mem, fuel), fuel, W.SigsOf(w.p)[f].params[i..])
    decreases fuel, es, 0
  {
    hide Step, Iter, Rel, SsaName, Linked, At, W.EvalExpr, GenExpr, W.ExprOk, W.SigsOf, EvalOp, Fits, EvalArgs,
      W.FitAll, W.Coerce, W.CoerceAll, Ensured, W.Converts, W.YieldOf, W.Plain;
    var env, sigs := W.Plain(sc), W.SigsOf(w.p);
    var tys := sigs[f].params[i..];
    n, fr' := 0, fr;
    if es == [] {
      ArgsNone(w, fr, mem);
    } else {
      var ty := ParamType(sigs, f, i);
      assert ty == tys[0] && tys[1..] == sigs[f].params[i + 1..];
      var h := Ensured(GenExpr(es[0], env, sigs, temp), ty);
      var t := GenArgs(es[1..], f, i + 1, env, sigs, h.temp);
      AtAppend(fr.fn.code, fr.pc, h.code, t.code);
      n, fr' := SimEnsured(w, es[0], ty, sc, b, fr, mem, temp, fuel);
      var a := W.EvalExpr(w.p, es[0], b, mem, fuel);
      if a.Ok? {
        var n1, f1 := n, fr';
        var n2, f2 := SimArgs(w, es[1..], f, i + 1, sc, b, f1, a.v.mem, h.temp, fuel);
        var c := W.EvalList(w.p, es[1..], b, a.v.mem, fuel);
        n := n1 + n2;
        IterPlus(w.m, Running(fr, w.callers, mem), n1, n2);
        if c.Ok? {
          fr' := f2;
          MovedOp(h.v.op, f1, f2, |t.code|, h.temp, W.Coerce(a.v.v, ty));
          ExprShape(es[0], env, sigs, temp);
          EnsuredShape(GenExpr(es[0], env, sigs, temp), ty, temp);
          MovedTrans(fr, f1, f2, |h.code|, |t.code|, temp, h.temp);
          ArgsCons(w, es, f, i, env, temp, fr', a.v.v, c.v.vs, tys);
        }
      }
    }
  }

  lemma {:induction false} ArgsNone(w: World, fr: Frame, mem: Memory)
    ensures ArgsDone(w, fr, mem, 0, fr, GenA([], [], 0, false), 0, W.VsM([], mem), [])
  {
  }

  /** The argument list of a call, one argument at a time. */
  lemma {:induction false} ArgsCons(w: World, es: seq<W.Expr>, f: string, i: nat, env: seq<Entry>, temp: nat,
          fr: Frame, v: Value, vs: seq<Value>, tys: seq<TypeRef>)
    requires es != [] && tys != [] && f in W.SigsOf(w.p) && ParamType(W.SigsOf(w.p), f, i) == tys[0]
    requires var h := Ensured(GenExpr(es[0], env, W.SigsOf(w.p), temp), tys[0]);
             EvalOp(h.v.op, fr) == Some(W.Coerce(v, tys[0])) && Fits(W.Coerce(v, tys[0]), tys[0]) &&
             var t := GenArgs(es[1..], f, i + 1, env, W.SigsOf(w.p), h.temp);
             EvalArgs(t.args, fr) == Some(W.CoerceAll(vs, tys[1..])) && ArgTypes(t.args) == tys[1..] &&
             W.FitAll(W.CoerceAll(vs, tys[1..]), tys[1..])
    ensures var g := GenArgs(es, f, i, env, W.SigsOf(w.p), temp);
            EvalArgs(g.args, fr) == Some(W.CoerceAll([v] + vs, tys)) && ArgTypes(g.args) == tys &&
            W.FitAll(W.CoerceAll([v] + vs, tys), tys)
  {
    hide GenExpr, Ensured, W.SigsOf, EvalOp, EvalArgs, W.Coerce, W.CoerceAll, Fits, W.FitAll, ArgTypes;
    var h := Ensured(GenExpr(es[0], env, W.SigsOf(w.p), temp), tys[0]);
    var t := GenArgs(es[1..], f, i + 1, env, W.SigsOf(w.p), h.temp);
    ArgFirst(Arg(tys[0], h.v.op), t.args, fr, v, vs, tys);
  }

  lemma {:induction false} ArgFirst(a: Arg, args: seq<Arg>, fr: Frame, v: Value, vs: seq<Value>, tys: seq<TypeRef>)
    requires tys != [] && a.ty == tys[0]
    requires EvalOp(a.v, fr) == Some(W.Coerce(v, tys[0])) && Fits(W.Coerce(v, tys[0]), tys[0])
    requires EvalArgs(args, fr) == Some(W.CoerceAll(vs, tys[1..])) && ArgTypes(args) == tys[1..]
    requires W.FitAll(W.CoerceAll(vs, tys[1..]), tys[1..])
    ensures EvalArgs([a] + args, fr) == Some(W.CoerceAll([v] + vs, tys)) && ArgTypes([a] + args) == tys
    ensures W.FitAll(W.CoerceAll([v] + vs, tys), tys)
  {
    hide EvalOp, Fits, W.Coerce;
    assert ([a] + args)[1..] == args && ([v] + vs)[1..] == vs && tys == [tys[0]] + tys[1..];
  }

  lemma {:induction false} SimCall(w: World, e: W.Expr, sc: W.Scope, b: W.Bindings, fr: Frame, mem: Memory, temp: nat,
          fuel: nat)
    returns (n: nat, fr': Frame)
    requires e.CallFn? && Ready(w, sc, b, fr, GenExpr(e, W.Plain(sc), W.SigsOf(w.p), temp).code)
    requires W.ExprOk(e, sc, W.SigsOf(w.p))
    ensures ExprEnds(w, fr, mem, n, fr', GenExpr(e, W.Plain(sc), W.SigsOf(w.p), temp), temp, |sc|,
                     W.EvalExpr(w.p, e, b, mem, fuel), fuel)
    decreases fuel, e, 0
  {
    hide Step, Iter, Rel, SsaName, Linked, At, W.RunFn, W.EvalList, GenArgs, W.SigsOf, EvalArgs, W.FitAll, GenExpr,
      W.Plain,
      Failed, W.EvalExpr, W.ExprOk, ArgTypes, Fits, W.FindDef, W.EntryTypes, W.SigOf, W.ArgsOk, W.FnOk, Put;
    var env, sigs := W.Plain(sc), W.SigsOf(w.p);
    var g := GenExpr(e, env, sigs, temp);
    var a := GenArgs(e.args, e.f, 0, env, sigs, temp);
    var i := CallInstr(e, a, sigs);
    CallCode(e, env, sigs, temp);
    CallEval(w.p, e, b, mem, fuel);
    CallChecked(e, sc, sigs);
    ZeroFits();
    AtAppend(fr.fn.code, fr.pc, a.code, [i]);
    assert sigs[e.f].params[0..] == sigs[e.f].params;
    n, fr' := SimArgs(w, e.args, e.f, 0, sc, b, fr, mem, temp, fuel);
    var r := W.EvalList(w.p, e.args, b, mem, fuel);
    if r.Ok? {
      var n1, f1 := n, fr';
      ArgsShape(e.args, e.f, 0, env, sigs, temp);
      AtCall(f1, i);
      var n2, f2 := SimEnter(w, e, e.f, i, f1, W.CoerceAll(r.v.vs, sigs[e.f].params), r.v.mem, a.temp, fuel);
      n, fr' := n1 + n2, f2;
      IterPlus(w.m, Running(fr, w.callers, mem), n1, n2);
      CalleeHas(w, e.f);
      var whole := W.EvalExpr(w.p, e, b, mem, fuel);
      if whole.Ok? {
        MovedTrans(fr, f1, f2, |a.code|, 1, temp, a.temp);
      } else {
        FailedLater(w, fr, mem, n1, f1, r.v.mem, n2, whole, whole, fuel);
      }
    } else {
      FailedAlso(w, fr, mem, n, r, W.EvalExpr(w.p, e, b, mem, fuel), fuel);
    }
  }

  function CallInstr(e: W.Expr, a: GenA, sigs: W.Sigs): Instr
    requires e.CallFn?
  {
    var ret := RetType(sigs, e.f);
    if ret.Void? then Call(None, Void, e.f, a.args) else Call(Some(a.temp), ret, e.f, a.args)
  }

  lemma {:induction false} CallEval(p: W.Program, e: W.Expr, b: W.Bindings, mem: Memory, fuel: nat)
    requires e.CallFn?
    ensures var a := W.EvalList(p, e.args, b, mem, fuel);
            var r := W.EvalExpr(p, e, b, mem, fuel);
            if !a.Ok? then !r.Ok? && r.Stuck? == a.Stuck?
            else if W.FindDef(p, e.f).None? then r.Stuck?
            else
              var fn := W.FindDef(p, e.f).value;
              var vs := W.CoerceAll(a.v.vs, W.EntryTypes(fn.params));
              if !W.FitAll(vs, W.EntryTypes(fn.params)) then r.Stuck?
              else if fuel == 0 then r == W.Timeout
              else r == W.RunFn(p, fn, vs, a.v.mem, fuel - 1)
  {
    hide W.FindDef, W.EntryTypes, W.FitAll, W.RunFn, W.CoerceAll;
  }

  lemma {:induction false} CallChecked(e: W.Expr, sc: W.Scope, sigs: W.Sigs)
    requires e.CallFn? && W.ExprOk(e, sc, sigs)
    ensures e.f in sigs && W.ArgsOk(e.args, sigs[e.f].params, sc, sigs)
  {
  }

  lemma {:induction false} ZeroFits()
    ensures Fits(Int(0), I32)
  {
  }

  lemma {:induction false} CallCode(e: W.Expr, env: seq<Entry>, sigs: W.Sigs, temp: nat)
    requires e.CallFn?
    ensures var a := GenArgs(e.args, e.f, 0, env, sigs, temp);
            var g := GenExpr(e, env, sigs, temp);
            g.code == a.code + [CallInstr(e, a, sigs)] && !g.fatal == !a.fatal &&
            if RetType(sigs, e.f).Void? then g.v == ZERO && g.temp == a.temp
            else g.v == GVal(RetType(sigs, e.f), Temp(a.temp)) && g.temp == a.temp + 1
  {
    hide GenArgs;
  }

  lemma {:induction false} AtCall(fr: Frame, i: Instr)
    requires At(fr.fn.code, fr.pc, [i])
    ensures fr.pc < |fr.fn.code| && fr.fn.code[fr.pc] == i
  {
    AtHead(fr.fn.code, fr.pc, [i], 0);
  }

  lemma {:induction false} TableHas(w: World, f: string)
    requires Linked(w.p, w.m) && f in W.SigsOf(w.p)
    ensures W.FindDef(w.p, f).Some? && W.SigsOf(w.p)[f] == W.SigOf(W.FindDef(w.p, f).value)
    ensures W.FnOk(W.FindDef(w.p, f).value, W.SigsOf(w.p))
  {
    SigsAgree(w.p, f);
  }

  lemma {:induction false} CalleeHas(w: World, f: string)
    requires Linked(w.p, w.m) && f in W.SigsOf(w.p)
    ensures var fn := W.FindDef(w.p, f);
            fn.Some? && W.SigsOf(w.p)[f].ret == fn.value.ret && W.SigsOf(w.p)[f].params == W.EntryTypes(fn.value.params)
  {
    TableHas(w, f);
  }

  /** The call instruction itself: into the callee, through its body and back. */
  lemma {:induction false} SimEnter(w: World, e: W.Expr, f: string, i: Instr, fr: Frame, vs: seq<Value>, mem: Memory,
          temp: nat, fuel: nat)
    returns (n: nat, fr': Frame)
    requires e.CallFn? && e.f == f && Linked(w.p, w.m) && f in W.SigsOf(w.p) && i.Call? && i.f == f
    requires var sig := W.SigsOf(w.p)[f];
             i.ret == sig.ret && i.dst == (if sig.ret.Void? then None else Some(temp)) &&
             ArgTypes(i.args) == sig.params && W.FitAll(vs, sig.params) && EvalArgs(i.args, fr) == Some(vs)
    requires fr.pc < |fr.fn.code| && fr.fn.code[fr.pc] == i
    ensures var fn := W.FindDef(w.p, f);
            fn.Some? &&
            var r := if fuel == 0 then W.Timeout else W.RunFn(w.p, fn.value, vs, mem, fuel - 1);
            if r.Ok? then
              Iter(w.m, Running(fr, w.callers, mem), n) == Running(fr', w.callers, r.v.mem) &&
              Moved(fr, fr', 1, temp) &&
              (if fn.value.ret.Void? then r.v.v == Int(0)
               else EvalOp(Temp(temp), fr') == Some(r.v.v) && Fits(r.v.v, fn.value.ret))
            else Failed(w, fr, mem, n, r, fuel)
    decreases fuel, e.args, 1
  {
    hide Iter, Rel, SsaName, W.RunFn, GenFn, W.SigsOf, W.FitAll, EvalArgs, Exec, Linked, W.FnOk;
    TableHas(w, f);
    n, fr' := 0, fr;
    if fuel > 0 {
      var fn := W.FindDef(w.p, f).value;
      var t, l := CallTarget(w.p, w.m, f);
      var s := Running(fr, w.callers, mem);
      var callers := [fr] + w.callers;
      var target := GenFn(fn, W.SigsOf(w.p), t, l).fn;
      GenFnSig(fn, W.SigsOf(w.p), t, l);
      RunCall(w, i, fr, vs, mem, target);
      var k := SimFn(World(w.p, w.m, callers), fn, vs, mem, t, l, fuel - 1);
      IterPlus(w.m, s, 1, k);
      n := 1 + k;
      var r := W.RunFn(w.p, fn, vs, mem, fuel - 1);
      if r.Ok? {
        fr' := if fn.ret.Void? then fr.(pc := fr.pc + 1) else Put(fr, temp, r.v.v);
        RunFnFits(w.p, fn, vs, mem, fuel - 1);
        assert callers[1..] == w.callers;
      }
    } else {
      ZeroSteps(w, fr, mem);
    }
  }

  lemma {:induction false} ZeroSteps(w: World, fr: Frame, mem: Memory)
    ensures Iter(w.m, Running(fr, w.callers, mem), 0) == Running(fr, w.callers, mem)
  {
  }

  lemma {:induction false} GenFnSig(fn: W.FnDef, sigs: W.Sigs, t: nat, l: nat)
    ensures var g := GenFn(fn, sigs, t, l).fn;
            g.name == fn.name && g.ret == fn.ret && ParamTypes(g.params) == W.SigOf(fn).params
  {
    ParamTypesAre(fn.params, fn.params);
  }

  lemma {:induction false} RunFnFits(p: W.Program, fn: W.FnDef, vs: seq<Value>, m: Memory, fuel: nat)
    ensures var r := W.RunFn(p, fn, vs, m, fuel);
            r.Ok? ==> if fn.ret.Void? then r.v.v == Int(0) else Fits(r.v.v, fn.ret)
  {
  }

  lemma {:induction false} RunCall(w: World, i: Instr, fr: Frame, vs: seq<Value>, mem: Memory, fn: IrFn)
    requires i.Call? && fr.pc < |fr.fn.code| && fr.fn.code[fr.pc] == i && EvalArgs(i.args, fr) == Some(vs)
    requires FindFn(w.m, i.f) == Some(fn) && fn.ret == i.ret && (i.dst.None? <==> i.ret.Void?)
    requires ParamTypes(fn.params) == ArgTypes(i.args)
    ensures Iter(w.m, Running(fr, w.callers, mem), 1) == Enter(fn, vs, [fr] + w.callers, mem)
  {
    StepAt(w.m, Running(fr, w.callers, mem), 0);
  }

  /** Running a function: its emitted code leaves with the source's result. */
  lemma {:induction false} SimFn(w: World, fn: W.FnDef, vs: seq<Value>, mem: Memory, t: nat, l: nat, fuel: nat)
    returns (n: nat)
    requires Linked(w.p, w.m) && W.FnOk(fn, W.SigsOf(w.p)) && W.FitAll(vs, W.EntryTypes(fn.params))
    ensures var r := W.RunFn(w.p, fn, vs, mem, fuel);
            var s := Iter(w.m, Enter(GenFn(fn, W.SigsOf(w.p), t, l).fn, vs, w.callers, mem), n);
            match r
            case Ok(vm) => s == Leave(vm.v, w.callers, vm.mem)
            case Stuck(_) => s == Wrong
            case Timeout => n >= fuel && s.Running?
    decreases fuel, fn.body, 1
  {
    hide Iter, Step, Rel, SsaName, GenHeader, GenParams, GenList, GenEnd, W.ExecList, W.ParamScope, W.ParamBindings,
      Linked,
      W.SigsOf, Leave, Fits, LabelDefs, W.CheckList, W.FitAll, GenFn, StmtEnds, Enter, W.Result,
      W.FnOk, DistinctNames, W.EntryTypes, W.Plain, OneLabel, At;
    var sigs := W.SigsOf(w.p);
    var target := GenFn(fn, sigs, t, l).fn;
    var h := GenHeader(fn.params, fn.params);
    var g := GenList(fn.body, fn.params, sigs, fn.ret, t, l);
    var s := Enter(target, vs, w.callers, mem);
    var sc, b := W.ParamScope(fn.params), W.ParamBindings(fn.params, |mem|);
    FnLayout(fn, sigs, t, l);
    FnOkFacts(fn, sigs);
    PlainParams(fn.params);
    var f0 := SimFnHeader(w, fn, target, vs, mem);
    var n1, f1 := SimList(w, fn.body, sc, b, f0, mem + vs, fn.ret, t, l, fuel);
    IterPlus(w.m, s, |h|, n1);
    var k := FnEnds(w, fn, f0, mem + vs, n1, f1, t, l, W.ExecList(w.p, fn.body, b, mem + vs, fuel), fuel);
    IterPlus(w.m, s, |h|, k);
    n := |h| + k;
  }

  /** From the end of the body to the end of the call. */
  lemma {:induction false} FnEnds(w: World, fn: W.FnDef, f0: Frame, mem: Memory, n: nat, f1: Frame, t: nat, l: nat,
          r: W.Res<W.Flow>, fuel: nat)
    returns (k: nat)
    requires W.FnOk(fn, W.SigsOf(w.p)) && f0.fn == GenFn(fn, W.SigsOf(w.p), t, l).fn
    requires f0.pc == |GenHeader(fn.params, fn.params)|
    requires var sc := W.ParamScope(fn.params);
             StmtEnds(w, f0, mem, n, f1, GenList(fn.body, fn.params, W.SigsOf(w.p), fn.ret, t, l), t, sc,
                      W.CheckList(fn.body, sc, W.SigsOf(w.p), fn.ret).value.sc, r, fuel)
    ensures var s := Iter(w.m, Running(f0, w.callers, mem), k);
            match W.Retired(W.Result(fn.ret, r), f0.base)
            case Ok(vm) => s == Leave(vm.v, w.callers, vm.mem)
            case Stuck(_) => s == Wrong
            case Timeout => k >= fuel && s.Running?
  {
    hide Iter, Step, Rel, SsaName, GenHeader, GenParams, GenList, W.ParamScope, W.SigsOf, Leave, W.CheckList, Fits,
      StmtEnds;
    var sigs, sc := W.SigsOf(w.p), W.ParamScope(fn.params);
    var g := GenList(fn.body, fn.params, sigs, fn.ret, t, l);
    k := n;
    if r.Ok? && r.v.Next? {
      StmtCame(w, f0, mem, n, f1, g, t, sc, W.CheckList(fn.body, sc, sigs, fn.ret).value.sc, r, fuel);
      var j := SimTailOfFn(w, fn, f0, mem, n, f1, r.v, t, l);
      IterPlus(w.m, Running(f0, w.callers, mem), n, j);
      k := n + j;
    } else {
      StmtGone(w, f0, mem, n, f1, g, t, sc, W.CheckList(fn.body, sc, sigs, fn.ret).value.sc, r, fuel);
    }
  }

  lemma {:induction false} StmtCame(w: World, fr: Frame, mem: Memory, n: nat, fr': Frame, g: GenS, temp: nat,
          sc: W.Scope, sc': W.Scope, r: W.Res<W.Flow>, fuel: nat)
    requires StmtEnds(w, fr, mem, n, fr', g, temp, sc, sc', r, fuel) && r.Ok? && r.v.Next?
    ensures StmtDone(w, fr, mem, n, fr', g, temp, sc, sc', r.v)
  {
    hide Iter, StmtDone;
  }

  /** What `StmtEnds` says when control does not come out behind the statement. */
  lemma {:induction false} StmtGone(w: World, fr: Frame, mem: Memory, n: nat, fr': Frame, g: GenS, temp: nat,
          sc: W.Scope, sc': W.Scope, r: W.Res<W.Flow>, fuel: nat)
    requires StmtEnds(w, fr, mem, n, fr', g, temp, sc, sc', r, fuel) && !(r.Ok? && r.v.Next?)
    ensures var s := Iter(w.m, Running(fr, w.callers, mem), n);
            match r
            case Ok(f) => s == ExitWith(fr, f.v, w.callers, f.mem)
            case Stuck(_) => s == Wrong
            case Timeout => n >= fuel && s.Running?
  {
    hide Iter, Leave;
  }

  /** The end of a body that falls through to its implicit return. */
  lemma {:induction false} SimTailOfFn(w: World, fn: W.FnDef, f0: Frame, mem: Memory, n: nat, f1: Frame, flow: W.Flow,
          t: nat, l: nat)
    returns (k: nat)
    requires W.FnOk(fn, W.SigsOf(w.p)) && f0.fn == GenFn(fn, W.SigsOf(w.p), t, l).fn && flow.Next?
    requires f0.pc == |GenHeader(fn.params, fn.params)|
    requires var sc := W.ParamScope(fn.params);
             StmtDone(w, f0, mem, n, f1, GenList(fn.body, fn.params, W.SigsOf(w.p), fn.ret, t, l), t, sc,
                      W.CheckList(fn.body, sc, W.SigsOf(w.p), fn.ret).value.sc, flow)
    ensures var s := Iter(w.m, Running(f1, w.callers, flow.mem), k);
            Iter(w.m, Running(f0, w.callers, mem), n) == Running(f1, w.callers, flow.mem) &&
            if fn.ret.Void? then s == Leave(Int(0), w.callers, Retire(flow.mem, f0.base))
            else match W.Left(flow.last, fn.ret)
                 case None => s == Wrong
                 case Some(v) => s == ExitWith(f0, v, w.callers, flow.mem)
  {
    hide Iter, Step, Rel, SsaName, GenHeader, GenParams, GenList, GenEnd, W.ParamScope, W.SigsOf, Leave, W.CheckList,
      GenFn,
      Keeps, KeepsSlots, ExitWith, LastAt;
    var sigs, sc := W.SigsOf(w.p), W.ParamScope(fn.params);
    var g := GenList(fn.body, fn.params, sigs, fn.ret, t, l);
    var c := W.CheckList(fn.body, sc, sigs, fn.ret).value;
    PlainParams(fn.params);
    ListTracksGen(fn.body, sc, sigs, fn.ret, t, l);
    ListShape(fn.body, fn.params, sigs, fn.ret, t, l);
    FnLayout(fn, sigs, t, l);
    k := SimEnd(w, f1, flow.mem, g, c, |c.sc|, flow.last);
    if W.Left(flow.last, fn.ret).Some? {
      ExitSame(f0, f1, W.Left(flow.last, fn.ret).value, w.callers, flow.mem);
    }
  }

  /** How a function's code is laid out. */
  lemma {:induction false} FnLayout(fn: W.FnDef, sigs: W.Sigs, t: nat, l: nat)
    ensures var f := GenFn(fn, sigs, t, l).fn;
            var h := GenHeader(fn.params, fn.params);
            var g := GenList(fn.body, fn.params, sigs, fn.ret, t, l);
            f.ret == fn.ret && f.params == GenParams(fn.params, fn.params) && OneLabel(f.code) &&
            At(f.code, 0, h) && At(f.code, |h|, g.code) &&
            (!g.exits ==> At(f.code, |h| + |g.code|, GenEnd(g.last, fn.ret, g.temp).code))
  {
    hide GenHeader, GenParams, GenList, GenEnd, LabelDefs, At;
    var h := GenHeader(fn.params, fn.params);
    var g := GenList(fn.body, fn.params, sigs, fn.ret, t, l);
    var e := if g.exits then GenE([], ZERO, g.temp, false) else GenEnd(g.last, fn.ret, g.temp);
    FnLabels(fn, sigs, t, l);
    WholeCode(h + g.code + e.code, h + g.code, e.code);
    AtAppend(h + g.code + e.code, 0, h, g.code);
  }

  lemma {:induction false} FnOkFacts(fn: W.FnDef, sigs: W.Sigs)
    requires W.FnOk(fn, sigs)
    ensures DistinctNames(fn.params) && W.CheckList(fn.body, W.ParamScope(fn.params), sigs, fn.ret).Some?
  {
  }

  lemma {:induction false} FnLabels(fn: W.FnDef, sigs: W.Sigs, t: nat, l: nat)
    ensures OneLabel(GenFn(fn, sigs, t, l).fn.code)
  {
    FnShape(fn, sigs, t, l);
  }

  lemma {:induction false} WholeCode(code: seq<Instr>, a: seq<Instr>, b: seq<Instr>)
    requires code == a + b
    ensures At(code, 0, a) && At(code, |a|, b)
  {
    assert code[0..|code|] == code;
    AtAppend(code, 0, a, b);
  }

  lemma {:induction false} PlainParams(ps: seq<Entry>)
    ensures W.Plain(W.ParamScope(ps)) == ps
  {
  }

  /** The parameters are in their cells after the header. */
  lemma {:induction false} SimFnHeader(w: World, fn: W.FnDef, target: IrFn, vs: seq<Value>, mem: Memory)
    returns (fr: Frame)
    requires DistinctNames(fn.params) && W.FitAll(vs, W.EntryTypes(fn.params))
    requires target.params == GenParams(fn.params, fn.params) && At(target.code, 0, GenHeader(fn.params, fn.params))
    ensures var h := GenHeader(fn.params, fn.params);
            Iter(w.m, Enter(target, vs, w.callers, mem), |h|) == Running(fr, w.callers, mem + vs) &&
            fr.pc == |h| && fr.fn == target && fr.args == vs && fr.base == |mem| &&
            Rel(W.ParamScope(fn.params), W.ParamBindings(fn.params, |mem|), fr.slots)
  {
    hide Iter, Step, Rel, SsaName, GenHeader, GenParams;
    var ps := fn.params;
    assert ps[..|ps|] == ps && vs[..|vs|] == vs;
    HeaderLength(ps, ps);
    fr := SimHeader(w.m, target, ps, vs, w.callers, mem, |ps|);
  }

  /** The implicit return. */
  lemma {:induction false} SimEnd(w: World, fr: Frame, mem: Memory, g: GenS, c: W.Checked, depth: nat,
          last: Option<Value>)
    returns (k: nat)
    requires !g.exits && SameLast(g, c) && LastAt(g, fr, depth, last)
    requires At(fr.fn.code, fr.pc, GenEnd(g.last, fr.fn.ret, g.temp).code)
    requires fr.fn.ret.Void? || c.last.None? || W.Converts(c.last.value, fr.fn.ret)
    ensures var ret := fr.fn.ret;
            var s := Iter(w.m, Running(fr, w.callers, mem), k);
            if ret.Void? then s == Leave(Int(0), w.callers, Retire(mem, fr.base))
            else match W.Left(last, ret)
                 case None => s == Wrong
                 case Some(v) => s == ExitWith(fr, v, w.callers, mem)
  {
    hide Iter, Leave, SsaName, Ensure, Convertible;
    var ret := fr.fn.ret;
    if ret.Void? || g.last.None? {
      var code := GenEnd(g.last, ret, g.temp).code;
      AtHead(fr.fn.code, fr.pc, code, 0);
      StepAt(w.m, Running(fr, w.callers, mem), 0);
      ZeroSteps(w, fr, mem);
      k := 1;
    } else {
      var conv := Ensure(g.last.value, ret, g.temp);
      AtAppend(fr.fn.code, fr.pc, conv.code, [Ret(ret, conv.v.op)]);
      LastConverts(g, c, fr, ret, last.value);
      var n, f1 := SimEnsure(w.m, fr, w.callers, mem, g.last.value, last.value, ret, g.temp);
      AtCall(f1, Ret(ret, conv.v.op));
      StepAt(w.m, Running(f1, w.callers, mem), 0);
      ZeroSteps(w, f1, mem);
      IterPlus(w.m, Running(fr, w.callers, mem), n, 1);
      k := n + 1;
    }
  }

  lemma {:induction false} LastConverts(g: GenS, c: W.Checked, fr: Frame, ret: TypeRef, v: Value)
    requires !g.exits && SameLast(g, c) && g.last.Some? && W.Converts(c.last.value, ret)
    requires EvalOp(g.last.value.op, fr) == Some(v) && Fits(v, g.last.value.ty)
    ensures Convertible(g.last.value, v, ret)
  {
  }

  // ---------- statements ----------

  /** Leaving the function with a value, which must fit the return type. */
  function ExitWith(fr: Frame, v: Value, callers: seq<Frame>, mem: Memory): State {
    if fr.fn.ret.Void? then Leave(Int(0), callers, Retire(mem, fr.base))
    else if Fits(v, fr.fn.ret) then Leave(v, callers, Retire(mem, fr.base))
    else Wrong
  }

  lemma {:induction false} ExitSame(fr: Frame, f1: Frame, v: Value, callers: seq<Frame>, mem: Memory)
    requires f1.fn == fr.fn && f1.base == fr.base
    ensures ExitWith(f1, v, callers, mem) == ExitWith(fr, v, callers, mem)
  {
  }

  ghost predicate LastAt(g: GenS, fr: Frame, depth: nat, last: Option<Value>) {
    match g.last
    case None => last.None?
    case Some(v) => last.Some? && EvalOp(v.op, fr) == last && Fits(last.value, v.ty) && Settled(v.op, g.temp, depth)
  }

  ghost predicate OneLabel(code: seq<Instr>) {
    forall l: nat :: LabelDefs(code, l) <= 1
  }

  /** The machine is at a piece of the body of a function returning `ret`. */
  ghost predicate InBody(w: World, sc: W.Scope, b: W.Bindings, fr: Frame, code: seq<Instr>, ret: TypeRef) {
    Ready(w, sc, b, fr, code) && fr.fn.ret == ret && OneLabel(fr.fn.code)
  }

  /** The frame after code that defines temps from `temp` on and declarations from `n` on. */
  ghost predicate Shifted(fr: Frame, fr': Frame, pc: nat, temp: nat, n: nat) {
    fr' == fr.(pc := pc, temps := fr'.temps, slots := fr'.slots) &&
    Keeps(fr.temps, fr'.temps, temp) && KeepsSlots(fr.slots, fr'.slots, n)
  }

  lemma {:induction false} ShiftedTrans(f0: Frame, f1: Frame, f2: Frame, p1: nat, p2: nat, t0: nat, t1: nat, n0: nat,
          n1: nat)
    requires Shifted(f0, f1, p1, t0, n0) && Shifted(f1, f2, p2, t1, n1) && t0 <= t1 && n0 <= n1
    ensures Shifted(f0, f2, p2, t0, n0)
  {
  }

  lemma {:induction false} MovedShifts(f0: Frame, f1: Frame, k: nat, t: nat, n: nat)
    requires Moved(f0, f1, k, t)
    ensures Shifted(f0, f1, f0.pc + k, t, n)
  {
  }

  /** The machine is behind a statement. */
  ghost predicate StmtDone(w: World, fr: Frame, mem: Memory, n: nat, fr': Frame, g: GenS, temp: nat, sc: W.Scope,
          sc': W.Scope, f: W.Flow)
  {
    f.Next? && !g.exits && Iter(w.m, Running(fr, w.callers, mem), n) == Running(fr', w.callers, f.mem) &&
    Shifted(fr, fr', fr.pc + |g.code|, temp, |sc|) && Rel(sc', f.b, fr'.slots) && LastAt(g, fr', |sc'|, f.last)
  }

  ghost predicate StmtEnds(w: World, fr: Frame, mem: Memory, n: nat, fr': Frame, g: GenS, temp: nat, sc: W.Scope,
          sc': W.Scope, r: W.Res<W.Flow>, fuel: nat)
  {
    match r
    case Ok(Next(_, _, _)) => StmtDone(w, fr, mem, n, fr', g, temp, sc, sc', r.v)
    case Ok(Returned(v, m')) => Iter(w.m, Running(fr, w.callers, mem), n) == ExitWith(fr, v, w.callers, m')
    case _ => Failed(w, fr, mem, n, r, fuel)
  }

  /** What later code does is what the whole does. */
  lemma {:induction false} EndsLater(w: World, fr: Frame, mem: Memory, n: nat, f1: Frame, mem1: Memory, k: nat,
          fr': Frame, g1: GenS, g: GenS, temp: nat, temp1: nat, sc: W.Scope, sc1: W.Scope, sc': W.Scope,
          r: W.Res<W.Flow>, fuel: nat)
    requires Iter(w.m, Running(fr, w.callers, mem), n) == Running(f1, w.callers, mem1)
    requires Shifted(fr, f1, f1.pc, temp, |sc|) && temp <= temp1 && |sc| <= |sc1|
    requires StmtEnds(w, f1, mem1, k, fr', g1, temp1, sc1, sc', r, fuel)
    requires f1.pc + |g1.code| == fr.pc + |g.code| && g.exits == g1.exits
    requires !g1.exits ==> g.last == g1.last && g.temp == g1.temp
    ensures StmtEnds(w, fr, mem, n + k, fr', g, temp, sc, sc', r, fuel)
  {
    hide Iter, Rel, SsaName, Leave;
    IterPlus(w.m, Running(fr, w.callers, mem), n, k);
    if r.Ok? && r.v.Next? {
      ShiftedTrans(fr, f1, fr', f1.pc, f1.pc + |g1.code|, temp, temp1, |sc|, |sc1|);
    }
  }

  lemma {:induction false} SimStmt(w: World, s: W.Stmt, sc: W.Scope, b: W.Bindings, fr: Frame, mem: Memory,
          ret: TypeRef, temp: nat, lbl: nat, fuel: nat)
    returns (n: nat, fr': Frame)
    requires InBody(w, sc, b, fr, GenStmt(s, W.Plain(sc), W.SigsOf(w.p), ret, temp, lbl).code, ret)
    requires W.CheckStmt(s, sc, W.SigsOf(w.p), ret).Some?
    ensures StmtEnds(w, fr, mem, n, fr', GenStmt(s, W.Plain(sc), W.SigsOf(w.p), ret, temp, lbl), temp, sc,
                     W.CheckStmt(s, sc, W.SigsOf(w.p), ret).value.sc, W.ExecStmt(w.p, s, b, mem, fuel), fuel)
    decreases fuel, s, 3
  {
    hide *;
    match s
    case Nop => n, fr' := SimNop(w, sc, b, fr, mem, ret, temp, lbl, fuel);
    case Return(_) => n, fr' := SimReturn(w, s, sc, b, fr, mem, ret, temp, lbl, fuel);
    case StoreTo(_, _, _) => n, fr' := SimStore(w, s, sc, b, fr, mem, ret, temp, lbl, fuel);
    case Let(_, _, _, _) => n, fr' := SimLet(w, s, sc, b, fr, mem, ret, temp, lbl, fuel);
    case Set(_, _) => n, fr' := SimSet(w, s, sc, b, fr, mem, ret, temp, lbl, fuel);
    case Do(_) => n, fr' := SimDo(w, s, sc, b, fr, mem, ret, temp, lbl, fuel);
    case If(_, _, _) => n, fr' := SimIf(w, s, sc, b, fr, mem, ret, temp, lbl, fuel);
    case While(_, _) => n, fr' := SimWhile(w, s, sc, b, fr, mem, ret, temp, lbl, fuel);
    case Eval(_) => n, fr' := SimEval(w, s, sc, b, fr, mem, ret, temp, lbl, fuel);
  }

  lemma {:induction false} SimNop(w: World, sc: W.Scope, b: W.Bindings, fr: Frame, mem: Memory, ret: TypeRef,
          temp: nat, lbl: nat, fuel: nat)
    returns (n: nat, fr': Frame)
    requires InBody(w, sc, b, fr, GenStmt(W.Nop, W.Plain(sc), W.SigsOf(w.p), ret, temp, lbl).code, ret)
    ensures StmtEnds(w, fr, mem, n, fr', GenStmt(W.Nop, W.Plain(sc), W.SigsOf(w.p), ret, temp, lbl), temp, sc,
                     W.CheckStmt(W.Nop, sc, W.SigsOf(w.p), ret).value.sc, W.ExecStmt(w.p, W.Nop, b, mem, fuel), fuel)
  {
    hide Step, SsaName, Rel, Linked, At, W.SigsOf, W.Plain, Leave, Fits, EvalOp, LabelDefs, Find, Settled;
    n, fr' := 0, fr;
  }

  lemma {:induction false} SimDo(w: World, s: W.Stmt, sc: W.Scope, b: W.Bindings, fr: Frame, mem: Memory,
          ret: TypeRef, temp: nat, lbl: nat, fuel: nat)
    returns (n: nat, fr': Frame)
    requires s.Do? && InBody(w, sc, b, fr, GenStmt(s, W.Plain(sc), W.SigsOf(w.p), ret, temp, lbl).code, ret)
    requires W.CheckStmt(s, sc, W.SigsOf(w.p), ret).Some?
    ensures StmtEnds(w, fr, mem, n, fr', GenStmt(s, W.Plain(sc), W.SigsOf(w.p), ret, temp, lbl), temp, sc,
                     W.CheckStmt(s, sc, W.SigsOf(w.p), ret).value.sc, W.ExecStmt(w.p, s, b, mem, fuel), fuel)
    decreases fuel, s, 2
  {
    hide InBody, StmtEnds, W.ExecList, GenList, W.CheckList, W.SigsOf;
    n, fr' := SimList(w, s.ss, sc, b, fr, mem, ret, temp, lbl, fuel);
  }

  lemma {:induction false} SimEval(w: World, s: W.Stmt, sc: W.Scope, b: W.Bindings, fr: Frame, mem: Memory,
          ret: TypeRef, temp: nat, lbl: nat, fuel: nat)
    returns (n: nat, fr': Frame)
    requires s.Eval? && InBody(w, sc, b, fr, GenStmt(s, W.Plain(sc), W.SigsOf(w.p), ret, temp, lbl).code, ret)
    requires W.CheckStmt(s, sc, W.SigsOf(w.p), ret).Some?
    ensures StmtEnds(w, fr, mem, n, fr', GenStmt(s, W.Plain(sc), W.SigsOf(w.p), ret, temp, lbl), temp, sc,
                     W.CheckStmt(s, sc, W.SigsOf(w.p), ret).value.sc, W.ExecStmt(w.p, s, b, mem, fuel), fuel)
    decreases fuel, s, 2
  {
    hide Iter, Rel, SsaName, Linked, At, W.EvalExpr, GenExpr, W.ExprOk, W.SigsOf, EvalOp, Fits, Settled, Leave,
      W.ExprType;
    var g := GenExpr(s.e, W.Plain(sc), W.SigsOf(w.p), temp);
    n, fr' := SimExpr(w, s.e, sc, b, fr, mem, temp, fuel);
    var r := W.EvalExpr(w.p, s.e, b, mem, fuel);
    if r.Ok? {
      MovedShifts(fr, fr', |g.code|, temp, |sc|);
    } else {
      FailedAlso(w, fr, mem, n, r, W.ExecStmt(w.p, s, b, mem, fuel), fuel);
    }
  }

  lemma {:induction false} SimReturn(w: World, s: W.Stmt, sc: W.Scope, b: W.Bindings, fr: Frame, mem: Memory,
          ret: TypeRef, temp: nat, lbl: nat, fuel: nat)
    returns (n: nat, fr': Frame)
    requires s.Return? && InBody(w, sc, b, fr, GenStmt(s, W.Plain(sc), W.SigsOf(w.p), ret, temp, lbl).code, ret)
    requires W.CheckStmt(s, sc, W.SigsOf(w.p), ret).Some?
    ensures StmtEnds(w, fr, mem, n, fr', GenStmt(s, W.Plain(sc), W.SigsOf(w.p), ret, temp, lbl), temp, sc,
                     W.CheckStmt(s, sc, W.SigsOf(w.p), ret).value.sc, W.ExecStmt(w.p, s, b, mem, fuel), fuel)
    decreases fuel, s, 2
  {
    hide Iter, Rel, SsaName, Linked, At, W.EvalExpr, GenExpr, W.ExprOk, W.SigsOf, EvalOp, Fits, Settled, W.ExprType,
      Step;
    var g := GenExpr(s.e, W.Plain(sc), W.SigsOf(w.p), temp);
    var i := if ret.Void? then RetVoid else Ret(ret, g.v.op);
    AtAppend(fr.fn.code, fr.pc, g.code, [i]);
    n, fr' := SimExpr(w, s.e, sc, b, fr, mem, temp, fuel);
    var r := W.EvalExpr(w.p, s.e, b, mem, fuel);
    if r.Ok? {
      AtCall(fr', i);
      RunRet(w, fr', r.v.mem, g.v.op, r.v.v);
      IterPlus(w.m, Running(fr, w.callers, mem), n, 1);
      n := n + 1;
    } else {
      FailedAlso(w, fr, mem, n, r, W.ExecStmt(w.p, s, b, mem, fuel), fuel);
    }
  }

  lemma {:induction false} RunRet(w: World, fr: Frame, mem: Memory, o: Operand, v: Value)
    requires fr.pc < |fr.fn.code| && EvalOp(o, fr) == Some(v)
    requires fr.fn.code[fr.pc] == if fr.fn.ret.Void? then RetVoid else Ret(fr.fn.ret, o)
    ensures Iter(w.m, Running(fr, w.callers, mem), 1) == ExitWith(fr, v, w.callers, mem)
  {
    hide Leave, EvalOp;
    StepAt(w.m, Running(fr, w.callers, mem), 0);
    ZeroSteps(w, fr, mem);
  }

  lemma {:induction false} RunStore(w: World, fr: Frame, mem: Memory, i: Instr, v: Value, a: Value)
    requires i.Store? && fr.pc < |fr.fn.code| && fr.fn.code[fr.pc] == i && i.pty == Ptr(i.ty)
    requires EvalOp(i.v, fr) == Some(v) && EvalOp(i.p, fr) == Some(a)
    ensures Iter(w.m, Running(fr, w.callers, mem), 1) ==
            match Write(mem, a, i.ty, v)
            case None => Wrong
            case Some(m') => Running(fr.(pc := fr.pc + 1), w.callers, m')
  {
    hide EvalOp, Write;
    StepAt(w.m, Running(fr, w.callers, mem), 0);
    ZeroSteps(w, fr, mem);
  }

  lemma {:induction false} SimSet(w: World, s: W.Stmt, sc: W.Scope, b: W.Bindings, fr: Frame, mem: Memory,
          ret: TypeRef, temp: nat, lbl: nat, fuel: nat)
    returns (n: nat, fr': Frame)
    requires s.Set? && InBody(w, sc, b, fr, GenStmt(s, W.Plain(sc), W.SigsOf(w.p), ret, temp, lbl).code, ret)
    requires W.CheckStmt(s, sc, W.SigsOf(w.p), ret).Some?
    ensures StmtEnds(w, fr, mem, n, fr', GenStmt(s, W.Plain(sc), W.SigsOf(w.p), ret, temp, lbl), temp, sc,
                     W.CheckStmt(s, sc, W.SigsOf(w.p), ret).value.sc, W.ExecStmt(w.p, s, b, mem, fuel), fuel)
    decreases fuel, s, 2
  {
    hide Iter, Rel, SsaName, Linked, At, W.EvalExpr, GenExpr, W.ExprOk, W.SigsOf, Fits, Settled, W.ExprType, Step,
      Leave, Find, Write;
    var env := W.Plain(sc);
    var g := GenExpr(s.e, env, W.SigsOf(w.p), temp);
    var ty := TypeOf(env, s.x).value;
    var i := StoreSlot(ty, g.v.op, SsaOf(env, s.x));
    AtAppend(fr.fn.code, fr.pc, g.code, [i]);
    n, fr' := SimExpr(w, s.e, sc, b, fr, mem, temp, fuel);
    var r := W.EvalExpr(w.p, s.e, b, mem, fuel);
    if r.Ok? {
      RelLookup(sc, b, fr.slots, s.x);
      AtCall(fr', i);
      var v := W.Lookup(b, s.x).value;
      RunStore(w, fr', r.v.mem, i, r.v.v, Pointer(v.loc));
      IterPlus(w.m, Running(fr, w.callers, mem), n, 1);
      n := n + 1;
      MovedShifts(fr, fr', |g.code|, temp, |sc|);
      fr' := fr'.(pc := fr'.pc + 1);
    } else {
      FailedAlso(w, fr, mem, n, r, W.ExecStmt(w.p, s, b, mem, fuel), fuel);
    }
  }

  lemma {:induction false} SimStore(w: World, s: W.Stmt, sc: W.Scope, b: W.Bindings, fr: Frame, mem: Memory,
          ret: TypeRef, temp: nat, lbl: nat, fuel: nat)
    returns (n: nat, fr': Frame)
    requires s.StoreTo? && InBody(w, sc, b, fr, GenStmt(s, W.Plain(sc), W.SigsOf(w.p), ret, temp, lbl).code, ret)
    requires W.CheckStmt(s, sc, W.SigsOf(w.p), ret).Some?
    ensures StmtEnds(w, fr, mem, n, fr', GenStmt(s, W.Plain(sc), W.SigsOf(w.p), ret, temp, lbl), temp, sc,
                     W.CheckStmt(s, sc, W.SigsOf(w.p), ret).value.sc, W.ExecStmt(w.p, s, b, mem, fuel), fuel)
    decreases fuel, s, 2
  {
    hide Iter, Rel, SsaName, Linked, At, W.EvalExpr, GenExpr, W.ExprOk, W.SigsOf, EvalOp, Fits, Step, Leave, Find,
      Write;
    var env, sigs := W.Plain(sc), W.SigsOf(w.p);
    var q := GenExpr(s.p, env, sigs, temp);
    var g := Ensured(GenExpr(s.e, env, sigs, q.temp), s.ty);
    GenType(s.p, env, sigs, temp);
    var i := Store(s.ty, g.v.op, q.v.ty, q.v.op);
    AtAppend(fr.fn.code, fr.pc, q.code + g.code, [i]);
    AtAppend(fr.fn.code, fr.pc, q.code, g.code);
    n, fr' := SimExpr(w, s.p, sc, b, fr, mem, temp, fuel);
    var a := W.EvalExpr(w.p, s.p, b, mem, fuel);
    if a.Ok? {
      var n1, f1 := n, fr';
      var n2, f2 := SimEnsured(w, s.e, s.ty, sc, b, f1, a.v.mem, q.temp, fuel);
      var r := W.Coerced(W.EvalExpr(w.p, s.e, b, a.v.mem, fuel), s.ty);
      if r.Ok? {
        IterPlus(w.m, Running(fr, w.callers, mem), n1, n2);
        MovedOp(q.v.op, f1, f2, |g.code|, q.temp, a.v.v);
        ExprShape(s.p, env, sigs, temp);
        MovedTrans(fr, f1, f2, |q.code|, |g.code|, temp, q.temp);
        AtCall(f2, i);
        RunStore(w, f2, r.v.mem, i, r.v.v, a.v.v);
        IterPlus(w.m, Running(fr, w.callers, mem), n1 + n2, 1);
        n := n1 + n2 + 1;
        MovedShifts(fr, f2, |q.code| + |g.code|, temp, |sc|);
        fr' := f2.(pc := f2.pc + 1);
      } else {
        FailedLater(w, fr, mem, n1, f1, a.v.mem, n2, r, W.ExecStmt(w.p, s, b, mem, fuel), fuel);
        n := n1 + n2;
      }
    } else {
      FailedAlso(w, fr, mem, n, a, W.ExecStmt(w.p, s, b, mem, fuel), fuel);
    }
  }

  lemma {:induction false} LetCode(a: seq<Instr>, b: seq<Instr>, c: seq<Instr>, d: seq<Instr>, e: seq<Instr>)
    ensures a + b + c + d + e == a + ((b + c + d) + e)
  {
  }

  lemma {:induction false} GenInitTemp(g: GenE, ty: TypeRef)
    ensures g.temp <= GenInit(g, ty).temp
  {
  }

  lemma {:induction false} KeepsThrough(f0: Frame, f1: Frame, f2: Frame, k: nat, t0: nat, t1: nat)
    requires Moved(f0, f1, k, t0) && Keeps(f1.temps, f2.temps, t1) && t0 <= t1
    ensures Keeps(f0.temps, f2.temps, t0)
  {
  }

  lemma {:induction false} ReadPast(m: Memory, v: Value, ty: TypeRef)
    ensures Read(m + [Undef], v, ty) == Read(m, v, ty)
  {
  }

  /** The alloca, the load stage0 may insert, and the store of a `let`. */
  lemma {:induction false} SimLetHead(w: World, x: string, ty: TypeRef, g: GenE, depth: nat, fr: Frame, mem: Memory,
          v: Value)
    returns (n: nat, fr': Frame)
    requires var ssa := SsaName(x, depth);
             var i := GenInit(g, ty);
             At(fr.fn.code, fr.pc, [Alloca(ssa, ty)] + i.code + [StoreSlot(ty, i.v.op, ssa)])
    requires EvalOp(g.v.op, fr) == Some(v) && Settled(g.v.op, g.temp, depth)
    ensures var x' := W.Initial(v, g.v.ty, ty, mem);
            var s := Iter(w.m, Running(fr, w.callers, mem), n);
            if x'.None? then s == Wrong
            else
              s == Running(fr', w.callers, mem + [x'.value]) && Keeps(fr.temps, fr'.temps, g.temp) &&
              fr' == fr.(pc := fr.pc + |GenInit(g, ty).code| + 2, temps := fr'.temps,
                         slots := fr.slots[SsaName(x, depth) := |mem|])
  {
    hide Iter, Step, SsaName, EvalOp, Fits;
    var ssa := SsaName(x, depth);
    var i := GenInit(g, ty);
    AtAppend(fr.fn.code, fr.pc, [Alloca(ssa, ty)] + i.code, [StoreSlot(ty, i.v.op, ssa)]);
    AtAppend(fr.fn.code, fr.pc, [Alloca(ssa, ty)], i.code);
    AtCall(fr, Alloca(ssa, ty));
    var f1 := fr.(pc := fr.pc + 1, slots := fr.slots[ssa := |mem|]);
    var mem1 := mem + [Undef];
    RunAlloca(w, fr, mem, ssa, ty);
    NewSlotKeeps(fr.slots, x, depth, |mem|);
    SettledKeeps(g.v.op, fr, f1, g.temp, depth, v);
    var s0 := Running(fr, w.callers, mem);
    if g.v.ty == Ptr(ty) {
      ReadPast(mem, v, ty);
      var r := Read(mem, v, ty);
      RunLoad(w, f1, mem1, g.temp, ty, g.v, v);
      IterPlus(w.m, s0, 1, 1);
      n, fr' := 2, f1;
      if r.Some? {
        var f2 := Put(f1, g.temp, r.value);
        PutKeeps(f1, g.temp, r.value, Const(0));
        fr' := StoreNew(w, f2, mem, ty, Temp(g.temp), ssa, r);
        IterPlus(w.m, s0, 2, 1);
        n := 3;
      }
    } else {
      fr' := StoreNew(w, f1, mem, ty, g.v.op, ssa, Some(v));
      IterPlus(w.m, s0, 1, 1);
      n := 2;
    }
  }

  lemma {:induction false} RunAlloca(w: World, fr: Frame, mem: Memory, ssa: string, ty: TypeRef)
    requires fr.pc < |fr.fn.code| && fr.fn.code[fr.pc] == Alloca(ssa, ty)
    ensures Iter(w.m, Running(fr, w.callers, mem), 1)
         == Running(fr.(pc := fr.pc + 1, slots := fr.slots[ssa := |mem|]), w.callers, mem + [Undef])
  {
    StepAt(w.m, Running(fr, w.callers, mem), 0);
    ZeroSteps(w, fr, mem);
  }

  lemma {:induction false} RunLoad(w: World, fr: Frame, mem: Memory, t: nat, ty: TypeRef, p: GVal, a: Value)
    requires At(fr.fn.code, fr.pc, [Load(t, ty, p.ty, p.op)]) && p.ty == Ptr(ty) && EvalOp(p.op, fr) == Some(a)
    ensures Iter(w.m, Running(fr, w.callers, mem), 1) ==
            match Read(mem, a, ty)
            case None => Wrong
            case Some(v) => Running(Put(fr, t, v), w.callers, mem)
  {
    hide EvalOp, Read;
    AtCall(fr, Load(t, ty, p.ty, p.op));
    RunDefine(w.m, fr, w.callers, mem, Load(t, ty, p.ty, p.op), t, Read(mem, a, ty));
  }

  /** The first store into a fresh cell. */
  lemma {:induction false} StoreNew(w: World, fr: Frame, mem: Memory, ty: TypeRef, o: Operand, ssa: string,
          v: Option<Value>)
    returns (fr': Frame)
    requires At(fr.fn.code, fr.pc, [StoreSlot(ty, o, ssa)]) && v.Some? && EvalOp(o, fr) == v
    requires ssa in fr.slots && fr.slots[ssa] == |mem|
    ensures var s := Iter(w.m, Running(fr, w.callers, mem + [Undef]), 1);
            if Fits(v.value, ty) then s == Running(fr', w.callers, mem + [v.value]) else s == Wrong
    ensures fr' == fr.(pc := fr.pc + 1)
  {
    hide Iter, Fits;
    var i := StoreSlot(ty, o, ssa);
    AtCall(fr, i);
    RunStore(w, fr, mem + [Undef], i, v.value, Pointer(|mem|));
    fr' := fr.(pc := fr.pc + 1);
    assert (mem + [Undef])[|mem| := v.value] == mem + [v.value];
  }

  lemma {:induction false} SimLet(w: World, s: W.Stmt, sc: W.Scope, b: W.Bindings, fr: Frame, mem: Memory,
          ret: TypeRef, temp: nat, lbl: nat, fuel: nat)
    returns (n: nat, fr': Frame)
    requires s.Let? && InBody(w, sc, b, fr, GenStmt(s, W.Plain(sc), W.SigsOf(w.p), ret, temp, lbl).code, ret)
    requires W.CheckStmt(s, sc, W.SigsOf(w.p), ret).Some?
    ensures StmtEnds(w, fr, mem, n, fr', GenStmt(s, W.Plain(sc), W.SigsOf(w.p), ret, temp, lbl), temp, sc,
                     W.CheckStmt(s, sc, W.SigsOf(w.p), ret).value.sc, W.ExecStmt(w.p, s, b, mem, fuel), fuel)
    decreases fuel, s, 2
  {
    hide Iter, Rel, SsaName, Linked, At, W.EvalExpr, GenExpr, W.ExprOk, W.SigsOf, EvalOp, Fits, Settled, Step, Leave,
      Find,
      GenList, W.ExecList, W.CheckList, W.Initial, GenInit, W.ExprType;
    var env, sigs := W.Plain(sc), W.SigsOf(w.p);
    var e := Entry(s.x, s.ty);
    var g := GenExpr(s.e, env, sigs, temp);
    var i := GenInit(g, s.ty);
    var ssa := SsaOf(env + [e], s.x);
    var t := GenList(s.rest, env + [e], sigs, ret, i.temp, lbl);
    var whole := GenStmt(s, env, sigs, ret, temp, lbl);
    LetSlot(sc, e);
    LetCode(g.code, [Alloca(ssa, s.ty)], i.code, [StoreSlot(s.ty, i.v.op, ssa)], t.code);
    var mid := [Alloca(ssa, s.ty)] + i.code + [StoreSlot(s.ty, i.v.op, ssa)];
    AtAppend(fr.fn.code, fr.pc, g.code, mid + t.code);
    AtAppend(fr.fn.code, fr.pc + |g.code|, mid, t.code);
    n, fr' := SimExpr(w, s.e, sc, b, fr, mem, temp, fuel);
    var r := W.EvalExpr(w.p, s.e, b, mem, fuel);
    if r.Ok? {
      var n1, f1 := n, fr';
      TypesAgree(s.e, sc, b, fr.slots, sigs);
      GenType(s.e, env, sigs, temp);
      ExprShape(s.e, env, sigs, temp);
      var n2, f2 := SimLetHead(w, s.x, s.ty, g, |sc|, f1, r.v.mem, r.v.v);
      IterPlus(w.m, Running(fr, w.callers, mem), n1, n2);
      n, fr' := n1 + n2, f2;
      var x := W.Initial(r.v.v, g.v.ty, s.ty, r.v.mem);
      if x.Some? {
        var sc1, b1, mem1 := sc + [W.Seen(e, true)], b + [W.Binding(s.x, s.ty, |r.v.mem|)], r.v.mem + [x.value];
        RelPush(sc, b, fr.slots, e, |r.v.mem|);
        PlainPush(sc, e);
        var n3, f3 := SimList(w, s.rest, sc1, b1, f2, mem1, ret, i.temp, lbl, fuel);
        GenInitTemp(g, s.ty);
        KeepsThrough(fr, f1, f2, |g.code|, temp, g.temp);
        EndsLater(w, fr, mem, n1 + n2, f2, mem1, n3, f3, t, whole, temp, i.temp, sc, sc1,
                  W.CheckStmt(s, sc, sigs, ret).value.sc, W.ExecStmt(w.p, s, b, mem, fuel), fuel);
        n, fr' := n1 + n2 + n3, f3;
      }
    } else {
      FailedAlso(w, fr, mem, n, r, W.ExecStmt(w.p, s, b, mem, fuel), fuel);
    }
  }
  // ---------- branches and loops ----------

  lemma {:induction false} JumpTo(w: World, fr: Frame, mem: Memory, i: Instr, l: nat, target: nat)
    requires fr.pc < |fr.fn.code| && fr.fn.code[fr.pc] == i
    requires i == Br(l) || (i.CondBr? && EvalOp(Temp(i.c), fr) == Some(Bool(true)) && i.l1 == l)
                        || (i.CondBr? && EvalOp(Temp(i.c), fr) == Some(Bool(false)) && i.l2 == l)
    requires OneLabel(fr.fn.code) && target < |fr.fn.code| && fr.fn.code[target] == Label(l)
    ensures Iter(w.m, Running(fr, w.callers, mem), 1) == Running(fr.(pc := target), w.callers, mem)
  {
    FindLabelAt(fr.fn.code, target);
    StepAt(w.m, Running(fr, w.callers, mem), 0);
    ZeroSteps(w, fr, mem);
  }

  lemma {:induction false} PassLabel(w: World, fr: Frame, mem: Memory, l: nat)
    requires fr.pc < |fr.fn.code| && fr.fn.code[fr.pc] == Label(l)
    ensures Iter(w.m, Running(fr, w.callers, mem), 1) == Running(fr.(pc := fr.pc + 1), w.callers, mem)
  {
    StepAt(w.m, Running(fr, w.callers, mem), 0);
    ZeroSteps(w, fr, mem);
  }

  /** A test: the machine ends at the label its value selects. */
  lemma {:induction false} SimTest(w: World, c: W.Expr, sc: W.Scope, b: W.Bindings, fr: Frame, mem: Memory, temp: nat,
          l1: nat, l2: nat, i1: nat, i2: nat, fuel: nat)
    returns (n: nat, fr': Frame)
    requires Ready(w, sc, b, fr, GenTest(c, W.Plain(sc), W.SigsOf(w.p), temp, l1, l2).code) && OneLabel(fr.fn.code)
    requires W.ExprOk(c, sc, W.SigsOf(w.p)) && W.Converts(W.YieldOf(c, W.Plain(sc), W.SigsOf(w.p)), I32)
    requires i1 < |fr.fn.code| && fr.fn.code[i1] == Label(l1) && i2 < |fr.fn.code| && fr.fn.code[i2] == Label(l2)
    ensures var r := W.Coerced(W.EvalExpr(w.p, c, b, mem, fuel), I32);
            if r.Ok? then
              r.v.v.Int? && Iter(w.m, Running(fr, w.callers, mem), n) == Running(fr', w.callers, r.v.mem) &&
              Shifted(fr, fr', if r.v.v.n != 0 then i1 else i2, temp, |sc|)
            else Failed(w, fr, mem, n, r, fuel)
    decreases fuel, c, 3
  {
    hide Iter, Step, Rel, SsaName, Linked, At, W.EvalExpr, GenExpr, W.ExprOk, W.SigsOf, Settled, OneLabel, EvalOp,
      Ensured, W.Converts, W.YieldOf, W.Coerce;
    var env, sigs := W.Plain(sc), W.SigsOf(w.p);
    var g := Ensured(GenExpr(c, env, sigs, temp), I32);
    var t := g.temp;
    var tail := [Icmp(t, Ne, I32, g.v.op, Const(0)), CondBr(t, l1, l2)];
    AtAppend(fr.fn.code, fr.pc, g.code, tail);
    n, fr' := SimEnsured(w, c, I32, sc, b, fr, mem, temp, fuel);
    var r := W.Coerced(W.EvalExpr(w.p, c, b, mem, fuel), I32);
    if r.Ok? {
      var n1, f1 := n, fr';
      AtPair(f1.fn.code, f1.pc, tail);
      var x := r.v.v.n != 0;
      var f2 := Put(f1, t, Bool(x));
      ConstZero(f1);
      RunIcmp(w.m, f1, w.callers, r.v.mem, t, Ne, I32, g.v.op, Const(0), r.v.v, Int(0));
      PutKeeps(f1, t, Bool(x), Const(0));
      IterPlus(w.m, Running(fr, w.callers, mem), n1, 1);
      var i := if x then i1 else i2;
      JumpTo(w, f2, r.v.mem, tail[1], if x then l1 else l2, i);
      IterPlus(w.m, Running(fr, w.callers, mem), n1 + 1, 1);
      n, fr' := n1 + 2, f2.(pc := i);
      ExprShape(c, env, sigs, temp);
      EnsuredShape(GenExpr(c, env, sigs, temp), I32, temp);
      MovedTrans(fr, f1, f2, |g.code|, 1, temp, t);
      MovedShifts(fr, f2, |g.code| + 1, temp, |sc|);
    }
  }

  lemma {:induction false} ConstZero(fr: Frame)
    ensures EvalOp(Const(0), fr) == Some(Int(0))
  {
  }

  lemma {:induction false} AtPair(code: seq<Instr>, off: nat, pair: seq<Instr>)
    requires At(code, off, pair) && |pair| == 2
    ensures off + 1 < |code| && code[off] == pair[0] && code[off + 1] == pair[1]
  {
    AtHead(code, off, pair, 0);
    AtHead(code, off, pair, 1);
  }

  /** Passing through a labelled branch or loop body, up to the label behind it. */
  ghost predicate BranchEnds(w: World, fr: Frame, mem: Memory, n: nat, fr': Frame, exits: bool, it: nat, temp: nat,
          depth: nat, r: W.Res<W.Flow>, fuel: nat)
  {
    match r
    case Ok(Next(_, _, m')) =>
      !exits && n > 0 && Iter(w.m, Running(fr, w.callers, mem), n) == Running(fr', w.callers, m') &&
      Shifted(fr, fr', it, temp, depth)
    case Ok(Returned(v, m')) => Iter(w.m, Running(fr, w.callers, mem), n) == ExitWith(fr, v, w.callers, m')
    case _ => Failed(w, fr, mem, n, r, fuel)
  }

  lemma {:induction false} SimBranch(w: World, s: W.Stmt, sc: W.Scope, b: W.Bindings, fr: Frame, mem: Memory,
          ret: TypeRef, temp: nat, lbl: nat, l: nat, target: nat, it: nat, fuel: nat)
    returns (n: nat, fr': Frame)
    requires var g := GenStmt(s, W.Plain(sc), W.SigsOf(w.p), ret, temp, lbl);
             InBody(w, sc, b, fr, [Label(l)] + Closed(g.code, g.exits, target), ret) &&
             (!g.exits ==> it < |fr.fn.code| && fr.fn.code[it] == Label(target))
    requires W.CheckStmt(s, sc, W.SigsOf(w.p), ret).Some?
    ensures BranchEnds(w, fr, mem, n, fr', GenStmt(s, W.Plain(sc), W.SigsOf(w.p), ret, temp, lbl).exits, it, temp, |sc|,
                       W.ExecStmt(w.p, s, b, mem, fuel), fuel)
    decreases fuel, s, 4
  {
    hide Iter, Step, Rel, SsaName, Linked, At, W.ExecStmt, GenStmt, W.CheckStmt, W.SigsOf, OneLabel, Leave, LastAt,
      EvalOp;
    var g := GenStmt(s, W.Plain(sc), W.SigsOf(w.p), ret, temp, lbl);
    var c := Closed(g.code, g.exits, target);
    AtAppend(fr.fn.code, fr.pc, [Label(l)], c);
    AtCall(fr, Label(l));
    PassLabel(w, fr, mem, l);
    var f0 := fr.(pc := fr.pc + 1);
    if !g.exits {
      AtAppend(fr.fn.code, f0.pc, g.code, [Br(target)]);
    }
    var k, f1 := SimStmt(w, s, sc, b, f0, mem, ret, temp, lbl, fuel);
    var r := W.ExecStmt(w.p, s, b, mem, fuel);
    var s0 := Running(fr, w.callers, mem);
    IterPlus(w.m, s0, 1, k);
    n, fr' := 1 + k, f1;
    if r.Ok? && r.v.Next? {
      AtCall(f1, Br(target));
      JumpTo(w, f1, r.v.mem, Br(target), target, it);
      IterPlus(w.m, s0, n, 1);
      n, fr' := n + 1, f1.(pc := it);
    }
  }

  /** After a closed scope the variables are those before it. */
  lemma {:induction false} LeavingSame(p: W.Program, s: W.Stmt, b: W.Bindings, mem: Memory, fuel: nat)
    ensures var r := W.ExecStmt(p, s, b, mem, fuel);
            r.Ok? && r.v.Next? ==> W.Leaving(r, |b|) == W.Ok(W.Next(None, b, r.v.mem))
    ensures var r := W.ExecStmt(p, s, b, mem, fuel);
            !(r.Ok? && r.v.Next?) ==> W.Leaving(r, |b|) == r
  {
    hide W.ExecStmt;
    ExecExtends(p, s, b, mem, fuel);
  }

  lemma {:induction false} CloseRel(sc: W.Scope, full: W.Scope, b: W.Bindings, slots: map<string, nat>,
          slots': map<string, nat>)
    requires Rel(sc, b, slots) && KeepsSlots(slots, slots', |sc|) && Extends(sc, full)
    ensures Rel(W.Close(full, |sc|), b, slots')
  {
    RelKeeps(sc, b, slots, slots');
    CloseKeeps(sc, full);
    RelDead(sc, W.Close(full, |sc|), b, slots');
  }

  /** The rules of an `if-stmt`, taken apart. */
  lemma {:induction false} IfChecked(s: W.Stmt, sc: W.Scope, sigs: W.Sigs, ret: TypeRef, temp: nat, lbl: nat)
    requires s.If? && W.CheckStmt(s, sc, sigs, ret).Some?
    ensures W.ExprOk(s.cond, sc, sigs) && W.Converts(W.YieldOf(s.cond, W.Plain(sc), sigs), I32)
    ensures W.CheckStmt(s.thn, sc, sigs, ret).Some?
    ensures var t := W.CheckStmt(s.thn, sc, sigs, ret).value.sc;
            var sc1 := W.Close(t, |sc|);
            Extends(sc, t) && Extends(sc, sc1) && W.CheckStmt(s.els, sc1, sigs, ret).Some? &&
            var r := W.CheckStmt(s.els, sc1, sigs, ret).value.sc;
            Extends(sc, r) && W.CheckStmt(s, sc, sigs, ret) == Some(W.Checked(W.Close(r, |sc|), None)) &&
            W.Plain(sc1) == GenStmt(s.thn, W.Plain(sc), sigs, ret, temp, lbl).env
  {
    var t := W.CheckStmt(s.thn, sc, sigs, ret).value.sc;
    var sc1 := W.Close(t, |sc|);
    hide W.ExprOk, W.ExprType, GenStmt, W.Close;
    CheckExtends(s.thn, sc, sigs, ret);
    CloseKeeps(sc, t);
    CheckTracksGen(s.thn, sc, sigs, ret, temp, lbl);
    PlainClose(t, |sc|);
    CheckExtends(s.els, sc1, sigs, ret);
    ExtendsTrans(sc, sc1, W.CheckStmt(s.els, sc1, sigs, ret).value.sc);
  }

  /** How a finished branch ends the whole construct: past the label `end`. */
  lemma {:induction false} AfterBranch(w: World, fr: Frame, mem: Memory, n: nat, f1: Frame, mem1: Memory, k: nat,
          f2: Frame, exits: bool, it: nat, target: nat, temp: nat, temp1: nat, sc: W.Scope, depth: nat, full: W.Scope,
          b: W.Bindings, g: GenS, r: W.Res<W.Flow>, r': W.Res<W.Flow>, fuel: nat)
    returns (n': nat, fr': Frame)
    requires Iter(w.m, Running(fr, w.callers, mem), n) == Running(f1, w.callers, mem1)
    requires Shifted(fr, f1, f1.pc, temp, |sc|) && temp <= temp1 && |sc| <= depth
    requires BranchEnds(w, f1, mem1, k, f2, exits, it, temp1, depth, r, fuel)
    requires !exits ==> it < |fr.fn.code| && fr.fn.code[it] == Label(target) && it + 1 == fr.pc + |g.code| && !g.exits
    requires g.last == None && Rel(sc, b, fr.slots) && Extends(sc, full)
    requires r' == if r.Ok? && r.v.Next? then W.Ok(W.Next(None, b, r.v.mem)) else r
    ensures StmtEnds(w, fr, mem, n', fr', g, temp, sc, W.Close(full, |sc|), r', fuel)
  {
    hide Iter, Rel, SsaName, Leave, W.Close;
    IterPlus(w.m, Running(fr, w.callers, mem), n, k);
    n', fr' := n + k, f2;
    if r.Ok? && r.v.Next? {
      ShiftedTrans(fr, f1, f2, f1.pc, it, temp, temp1, |sc|, depth);
      PassLabel(w, f2, r.v.mem, target);
      IterPlus(w.m, Running(fr, w.callers, mem), n + k, 1);
      n', fr' := n + k + 1, f2.(pc := it + 1);
      CloseRel(sc, full, b, fr.slots, fr'.slots);
    }
  }

  lemma {:induction false} IfEval(p: W.Program, s: W.Stmt, b: W.Bindings, mem: Memory, fuel: nat)
    requires s.If?
    ensures var r := W.Coerced(W.EvalExpr(p, s.cond, b, mem, fuel), I32);
            var q := W.ExecStmt(p, s, b, mem, fuel);
            if !r.Ok? then q.Stuck? == r.Stuck? && q.Timeout? == r.Timeout?
            else r.v.v.Int? ==>
              q == W.Leaving(W.ExecStmt(p, if r.v.v.n != 0 then s.thn else s.els, b, r.v.mem, fuel), |b|)
  {
  }

  /** Where the parts of an `if-stmt` sit. */
  lemma {:induction false} IfPlaces(code: seq<Instr>, off: nat, q: seq<Instr>, tb: seq<Instr>, fb: seq<Instr>,
          end: seq<Instr>)
    returns (i1: nat, i2: nat, it: nat)
    requires At(code, off, q + tb + fb + end) && |tb| > 0 && |fb| > 0
    ensures i1 == off + |q| && i2 == i1 + |tb| && it == i2 + |fb|
    ensures At(code, off, q) && At(code, i1, tb) && At(code, i2, fb)
    ensures i1 < |code| && code[i1] == tb[0] && i2 < |code| && code[i2] == fb[0]
    ensures |end| > 0 ==> it < |code| && code[it] == end[0]
  {
    i1 := off + |q|;
    i2 := i1 + |tb|;
    it := i2 + |fb|;
    AtAppend(code, off, q + tb + fb, end);
    AtAppend(code, off, q + tb, fb);
    AtAppend(code, off, q, tb);
    AtHead(code, i1, tb, 0);
    AtHead(code, i2, fb, 0);
    if |end| > 0 {
      AtHead(code, it, end, 0);
    }
  }

  lemma {:induction false} ShiftedFacts(fr: Frame, f1: Frame, pc: nat, temp: nat, n: nat)
    requires Shifted(fr, f1, pc, temp, n)
    ensures f1.pc == pc && f1.fn == fr.fn && f1.base == fr.base
    ensures KeepsSlots(fr.slots, f1.slots, n) && Shifted(fr, f1, f1.pc, temp, n)
  {
  }

  lemma {:induction false} FailedStmt<T>(w: World, fr: Frame, mem: Memory, n: nat, fr': Frame, g: GenS, temp: nat,
          sc: W.Scope, sc': W.Scope, r: W.Res<T>, r': W.Res<W.Flow>, fuel: nat)
    requires Failed(w, fr, mem, n, r, fuel) && r'.Stuck? == r.Stuck? && r'.Timeout? == r.Timeout?
    ensures StmtEnds(w, fr, mem, n, fr', g, temp, sc, sc', r', fuel)
  {
  }

  lemma {:induction false} SimIf(w: World, s: W.Stmt, sc: W.Scope, b: W.Bindings, fr: Frame, mem: Memory,
          ret: TypeRef, temp: nat, lbl: nat, fuel: nat)
    returns (n: nat, fr': Frame)
    requires s.If? && InBody(w, sc, b, fr, GenStmt(s, W.Plain(sc), W.SigsOf(w.p), ret, temp, lbl).code, ret)
    requires W.CheckStmt(s, sc, W.SigsOf(w.p), ret).Some?
    ensures StmtEnds(w, fr, mem, n, fr', GenStmt(s, W.Plain(sc), W.SigsOf(w.p), ret, temp, lbl), temp, sc,
                     W.CheckStmt(s, sc, W.SigsOf(w.p), ret).value.sc, W.ExecStmt(w.p, s, b, mem, fuel), fuel)
    decreases fuel, s, 2
  {
    hide Iter, Step, Rel, SsaName, Linked, At, W.ExecStmt, GenStmt, W.CheckStmt, W.SigsOf, OneLabel, Leave, W.EvalExpr,
      GenTest, W.ExprOk, W.ExprType, Closed, W.Close, W.Leaving, Shifted, StmtEnds, BranchEnds;
    var env, sigs := W.Plain(sc), W.SigsOf(w.p);
    var q := GenTest(s.cond, env, sigs, temp, lbl, lbl + 1);
    var t := GenStmt(s.thn, env, sigs, ret, q.temp, lbl + 3);
    var f := GenStmt(s.els, t.env, sigs, ret, t.temp, t.lbl);
    var tb := [Label(lbl)] + Closed(t.code, t.exits, lbl + 2);
    var fb := [Label(lbl + 1)] + Closed(f.code, f.exits, lbl + 2);
    var end := if t.exits && f.exits then [] else [Label(lbl + 2)];
    var g := GenStmt(s, env, sigs, ret, temp, lbl);
    IfCode(s, env, sigs, ret, temp, lbl);
    IfChecked(s, sc, sigs, ret, q.temp, lbl + 3);
    IfEval(w.p, s, b, mem, fuel);
    TestShape(s.cond, env, sigs, temp, lbl, lbl + 1);
    StmtShape(s.thn, env, sigs, ret, q.temp, lbl + 3);
    var i1, i2, it := IfPlaces(fr.fn.code, fr.pc, q.code, tb, fb, end);
    n, fr' := SimTest(w, s.cond, sc, b, fr, mem, temp, lbl, lbl + 1, i1, i2, fuel);
    var r := W.Coerced(W.EvalExpr(w.p, s.cond, b, mem, fuel), I32);
    var whole := W.ExecStmt(w.p, s, b, mem, fuel);
    if r.Ok? {
      var n1, f1 := n, fr';
      var tsc := W.CheckStmt(s.thn, sc, sigs, ret).value.sc;
      var sc1 := W.Close(tsc, |sc|);
      var full := W.CheckStmt(s.els, sc1, sigs, ret).value.sc;
      var branch := if r.v.v.n != 0 then s.thn else s.els;
      var pc := if r.v.v.n != 0 then i1 else i2;
      LeavingSame(w.p, branch, b, r.v.mem, fuel);
      ShiftedFacts(fr, f1, pc, temp, |sc|);
      if r.v.v.n != 0 {
        RelKeeps(sc, b, fr.slots, f1.slots);
        var k, f2 := SimBranch(w, s.thn, sc, b, f1, r.v.mem, ret, q.temp, lbl + 3, lbl, lbl + 2, it, fuel);
        n, fr' := AfterBranch(w, fr, mem, n1, f1, r.v.mem, k, f2, t.exits, it, lbl + 2, temp, q.temp, sc, |sc|, full,
                              b, g, W.ExecStmt(w.p, s.thn, b, r.v.mem, fuel), whole, fuel);
      } else {
        CloseRel(sc, tsc, b, fr.slots, f1.slots);
        var k, f2 := SimBranch(w, s.els, sc1, b, f1, r.v.mem, ret, t.temp, t.lbl, lbl + 1, lbl + 2, it, fuel);
        n, fr' := AfterBranch(w, fr, mem, n1, f1, r.v.mem, k, f2, f.exits, it, lbl + 2, temp, t.temp, sc, |sc1|,
                              full, b, g, W.ExecStmt(w.p, s.els, b, r.v.mem, fuel), whole, fuel);
      }
    } else {
      FailedStmt(w, fr, mem, n, fr', g, temp, sc, W.CheckStmt(s, sc, sigs, ret).value.sc, r, whole, fuel);
    }
  }

  /** A loop from its condition label on. */
  function LoopCode(s: W.Stmt, env: seq<Entry>, sigs: W.Sigs, ret: TypeRef, temp: nat, lbl: nat): seq<Instr>
    requires s.While?
  {
    var g := GenTest(s.cond, env, sigs, temp, lbl + 1, lbl + 2);
    var b := GenStmt(s.body, env, sigs, ret, g.temp, lbl + 3);
    ([Label(lbl)] + g.code) + ([Label(lbl + 1)] + Closed(b.code, b.exits, lbl)) + [Label(lbl + 2)] + []
  }

  lemma {:induction false} WhileCode(s: W.Stmt, env: seq<Entry>, sigs: W.Sigs, ret: TypeRef, temp: nat, lbl: nat)
    requires s.While?
    ensures var g := GenStmt(s, env, sigs, ret, temp, lbl);
            g.code == [Br(lbl)] + LoopCode(s, env, sigs, ret, temp, lbl) && !g.exits && g.last.None?
  {
    hide GenTest, Closed;
  }

  lemma {:induction false} WhileChecked(s: W.Stmt, sc: W.Scope, sigs: W.Sigs, ret: TypeRef)
    requires s.While? && W.CheckStmt(s, sc, sigs, ret).Some?
    ensures W.ExprOk(s.cond, sc, sigs) && W.Converts(W.YieldOf(s.cond, W.Plain(sc), sigs), I32)
    ensures W.CheckStmt(s.body, sc, sigs, ret).Some?
    ensures var r := W.CheckStmt(s.body, sc, sigs, ret).value.sc;
            Extends(sc, r) && W.CheckStmt(s, sc, sigs, ret) == Some(W.Checked(W.Close(r, |sc|), None))
  {
    hide W.ExprOk, W.ExprType, W.Close;
    CheckExtends(s.body, sc, sigs, ret);
  }

  lemma {:induction false} JumpShifts(fr: Frame, pc: nat, temp: nat, n: nat)
    ensures Shifted(fr, fr.(pc := pc), pc, temp, n)
  {
  }

  lemma {:induction false} LoopHead(code: seq<Instr>, off: nat, s: W.Stmt, env: seq<Entry>, sigs: W.Sigs,
          ret: TypeRef, temp: nat, lbl: nat)
    requires s.While? && At(code, off, LoopCode(s, env, sigs, ret, temp, lbl))
    ensures off < |code| && code[off] == Label(lbl)
  {
    AtHead(code, off, LoopCode(s, env, sigs, ret, temp, lbl), 0);
  }

  /** One iteration of the source loop, and the rest. */
  lemma {:induction false} WhileEval(p: W.Program, s: W.Stmt, b: W.Bindings, mem: Memory, fuel: nat)
    requires s.While?
    ensures var r := W.Coerced(W.EvalExpr(p, s.cond, b, mem, fuel), I32);
            var q := W.ExecStmt(p, s, b, mem, fuel);
            if !r.Ok? then q.Stuck? == r.Stuck? && q.Timeout? == r.Timeout?
            else r.v.v.Int? ==>
              if r.v.v.n == 0 then q == W.Ok(W.Next(None, b, r.v.mem))
              else
                var c := W.ExecStmt(p, s.body, b, r.v.mem, fuel);
                if !c.Ok? then q == c
                else if c.v.Returned? then q == c
                else if fuel == 0 then q == W.Timeout
                else q == W.ExecStmt(p, s, b, c.v.mem, fuel - 1)
  {
    var r := W.Coerced(W.EvalExpr(p, s.cond, b, mem, fuel), I32);
    if r.Ok? && r.v.v.Int? && r.v.v.n != 0 {
      LeavingSame(p, s.body, b, r.v.mem, fuel);
    }
  }

  /** A loop from its condition label on, for all its iterations. */
  lemma {:induction false} SimLoop(w: World, s: W.Stmt, sc: W.Scope, b: W.Bindings, fr: Frame, mem: Memory,
          ret: TypeRef, temp: nat, lbl: nat, fuel: nat)
    returns (n: nat, fr': Frame)
    requires s.While? && InBody(w, sc, b, fr, LoopCode(s, W.Plain(sc), W.SigsOf(w.p), ret, temp, lbl), ret)
    requires W.CheckStmt(s, sc, W.SigsOf(w.p), ret).Some?
    ensures var r := W.ExecStmt(w.p, s, b, mem, fuel);
            BranchEnds(w, fr, mem, n, fr', false, fr.pc + |LoopCode(s, W.Plain(sc), W.SigsOf(w.p), ret, temp, lbl)|,
                       temp, |sc|, r, fuel) &&
            (r.Ok? && r.v.Next? ==> r.v.b == b && r.v.last.None?)
    decreases fuel, s, 1
  {
    hide Iter, Step, Rel, SsaName, Linked, At, W.ExecStmt, GenStmt, W.CheckStmt, W.SigsOf, OneLabel, Leave, W.EvalExpr,
      GenTest, W.ExprOk, W.ExprType, Closed, Shifted, Failed, ExitWith, W.Plain, Keeps, KeepsSlots, LabelDefs;
    var env, sigs := W.Plain(sc), W.SigsOf(w.p);
    var q := GenTest(s.cond, env, sigs, temp, lbl + 1, lbl + 2);
    var g := GenStmt(s.body, env, sigs, ret, q.temp, lbl + 3);
    var bb := [Label(lbl + 1)] + Closed(g.code, g.exits, lbl);
    WhileChecked(s, sc, sigs, ret);
    WhileEval(w.p, s, b, mem, fuel);
    TestShape(s.cond, env, sigs, temp, lbl + 1, lbl + 2);
    LoopHead(fr.fn.code, fr.pc, s, env, sigs, ret, temp, lbl);
    var i1, i2, it := IfPlaces(fr.fn.code, fr.pc, [Label(lbl)] + q.code, bb, [Label(lbl + 2)], []);
    var s0 := Running(fr, w.callers, mem);
    var f1;
    n, f1 := LoopTest(w, s.cond, sc, b, fr, mem, temp, lbl, i1, i2, fuel);
    fr' := f1;
    var r := W.Coerced(W.EvalExpr(w.p, s.cond, b, mem, fuel), I32);
    var whole := W.ExecStmt(w.p, s, b, mem, fuel);
    if r.Ok? {
      if r.v.v.n == 0 {
        PassLabel(w, f1, r.v.mem, lbl + 2);
        IterPlus(w.m, s0, n, 1);
        JumpShifts(f1, i2 + 1, temp, |sc|);
        fr' := f1.(pc := i2 + 1);
        ShiftedTrans(fr, f1, fr', i2, i2 + 1, temp, temp, |sc|, |sc|);
        n := n + 1;
      } else {
        RelKeeps(sc, b, fr.slots, f1.slots);
        var k, f2 := SimBranch(w, s.body, sc, b, f1, r.v.mem, ret, q.temp, lbl + 3, lbl + 1, lbl, fr.pc, fuel);
        var c := W.ExecStmt(w.p, s.body, b, r.v.mem, fuel);
        IterPlus(w.m, s0, n, k);
        if !c.Ok? {
          FailedLater(w, fr, mem, n, f1, r.v.mem, k, c, whole, fuel);
          n := n + k;
        } else if c.v.Returned? {
          ExitSame(fr, f1, c.v.v, w.callers, c.v.mem);
          n := n + k;
        } else {
          n, fr' := LoopAgain(w, s, sc, b, fr, mem, ret, temp, lbl, fuel, n, f1, r.v.mem, k, f2, c.v.mem, q.temp);
        }
      }
    } else {
      FailedAlso(w, fr, mem, n, r, whole, fuel);
    }
  }

  /** From the condition label through the test. */
  lemma {:induction false} LoopTest(w: World, c: W.Expr, sc: W.Scope, b: W.Bindings, fr: Frame, mem: Memory,
          temp: nat, lbl: nat, i1: nat, i2: nat, fuel: nat)
    returns (n: nat, f1: Frame)
    requires Ready(w, sc, b, fr, [Label(lbl)] + GenTest(c, W.Plain(sc), W.SigsOf(w.p), temp, lbl + 1, lbl + 2).code)
    requires W.ExprOk(c, sc, W.SigsOf(w.p)) && W.Converts(W.YieldOf(c, W.Plain(sc), W.SigsOf(w.p)), I32)
    requires OneLabel(fr.fn.code)
    requires i1 < |fr.fn.code| && fr.fn.code[i1] == Label(lbl + 1)
    requires i2 < |fr.fn.code| && fr.fn.code[i2] == Label(lbl + 2)
    ensures var r := W.Coerced(W.EvalExpr(w.p, c, b, mem, fuel), I32);
            if r.Ok? then
              n > 0 && r.v.v.Int? && Iter(w.m, Running(fr, w.callers, mem), n) == Running(f1, w.callers, r.v.mem) &&
              (var pc := if r.v.v.n != 0 then i1 else i2;
               f1.pc == pc && f1.fn == fr.fn && f1.base == fr.base && KeepsSlots(fr.slots, f1.slots, |sc|) &&
               Shifted(fr, f1, pc, temp, |sc|))
            else Failed(w, fr, mem, n, r, fuel)
    decreases fuel, c, 4
  {
    hide Iter, Step, Rel, SsaName, Linked, At, W.SigsOf, OneLabel, W.EvalExpr, GenTest, W.ExprOk, W.ExprType,
      Shifted, Failed;
    var q := GenTest(c, W.Plain(sc), W.SigsOf(w.p), temp, lbl + 1, lbl + 2);
    AtAppend(fr.fn.code, fr.pc, [Label(lbl)], q.code);
    AtCall(fr, Label(lbl));
    PassLabel(w, fr, mem, lbl);
    var f0 := fr.(pc := fr.pc + 1);
    var k;
    k, f1 := SimTest(w, c, sc, b, f0, mem, temp, lbl + 1, lbl + 2, i1, i2, fuel);
    n := 1 + k;
    IterPlus(w.m, Running(fr, w.callers, mem), 1, k);
    var r := W.Coerced(W.EvalExpr(w.p, c, b, mem, fuel), I32);
    if r.Ok? {
      var pc := if r.v.v.n != 0 then i1 else i2;
      JumpShifts(fr, fr.pc + 1, temp, |sc|);
      ShiftedFacts(f0, f1, pc, temp, |sc|);
      ShiftedTrans(fr, f0, f1, fr.pc + 1, pc, temp, temp, |sc|, |sc|);
      ShiftedFacts(fr, f1, pc, temp, |sc|);
    } else {
      FailedLater(w, fr, mem, 1, f0, mem, k, r, r, fuel);
    }
  }

  /** Back at the condition label with one unit of fuel less. */
  lemma {:induction false} LoopAgain(w: World, s: W.Stmt, sc: W.Scope, b: W.Bindings, fr: Frame, mem: Memory,
          ret: TypeRef, temp: nat, lbl: nat, fuel: nat, n1: nat, f1: Frame, mem1: Memory, k: nat, f2: Frame,
          mem2: Memory, temp1: nat)
    returns (n: nat, fr': Frame)
    requires s.While? && InBody(w, sc, b, fr, LoopCode(s, W.Plain(sc), W.SigsOf(w.p), ret, temp, lbl), ret)
    requires W.CheckStmt(s, sc, W.SigsOf(w.p), ret).Some?
    requires Iter(w.m, Running(fr, w.callers, mem), n1) == Running(f1, w.callers, mem1) && n1 + k > 0
    requires Iter(w.m, Running(f1, w.callers, mem1), k) == Running(f2, w.callers, mem2)
    requires Shifted(fr, f1, f1.pc, temp, |sc|) && Shifted(f1, f2, fr.pc, temp1, |sc|) && temp <= temp1
    ensures var r := if fuel == 0 then W.Timeout else W.ExecStmt(w.p, s, b, mem2, fuel - 1);
            BranchEnds(w, fr, mem, n, fr', false, fr.pc + |LoopCode(s, W.Plain(sc), W.SigsOf(w.p), ret, temp, lbl)|,
                       temp, |sc|, r, fuel) &&
            (r.Ok? && r.v.Next? ==> r.v.b == b && r.v.last.None?)
    decreases fuel, s, 0
  {
    hide Iter, Step, Rel, SsaName, Linked, At, W.ExecStmt, W.CheckStmt, W.SigsOf, OneLabel, LoopCode, Leave, Shifted;
    var s0 := Running(fr, w.callers, mem);
    IterPlus(w.m, s0, n1, k);
    ShiftedTrans(fr, f1, f2, f1.pc, fr.pc, temp, temp1, |sc|, |sc|);
    ShiftedFacts(fr, f2, fr.pc, temp, |sc|);
    n, fr' := n1 + k, f2;
    if fuel > 0 {
      RelKeeps(sc, b, fr.slots, f2.slots);
      var j, f3 := SimLoop(w, s, sc, b, f2, mem2, ret, temp, lbl, fuel - 1);
      IterPlus(w.m, s0, n, j);
      n, fr' := n + j, f3;
      var r := W.ExecStmt(w.p, s, b, mem2, fuel - 1);
      if r.Ok? && r.v.Next? {
        ShiftedTrans(fr, f2, f3, fr.pc, f2.pc + |LoopCode(s, W.Plain(sc), W.SigsOf(w.p), ret, temp, lbl)|,
                     temp, temp, |sc|, |sc|);
      }
    }
  }

  lemma {:induction false} SimWhile(w: World, s: W.Stmt, sc: W.Scope, b: W.Bindings, fr: Frame, mem: Memory,
          ret: TypeRef, temp: nat, lbl: nat, fuel: nat)
    returns (n: nat, fr': Frame)
    requires s.While? && InBody(w, sc, b, fr, GenStmt(s, W.Plain(sc), W.SigsOf(w.p), ret, temp, lbl).code, ret)
    requires W.CheckStmt(s, sc, W.SigsOf(w.p), ret).Some?
    ensures StmtEnds(w, fr, mem, n, fr', GenStmt(s, W.Plain(sc), W.SigsOf(w.p), ret, temp, lbl), temp, sc,
                     W.CheckStmt(s, sc, W.SigsOf(w.p), ret).value.sc, W.ExecStmt(w.p, s, b, mem, fuel), fuel)
    decreases fuel, s, 2
  {
    hide Iter, Step, Rel, SsaName, Linked, At, W.ExecStmt, GenStmt, W.CheckStmt, W.SigsOf, OneLabel, Leave,
      W.Close, Shifted, Failed, LoopCode;
    var env, sigs := W.Plain(sc), W.SigsOf(w.p);
    var loop := LoopCode(s, env, sigs, ret, temp, lbl);
    WhileCode(s, env, sigs, ret, temp, lbl);
    WhileChecked(s, sc, sigs, ret);
    AtAppend(fr.fn.code, fr.pc, [Br(lbl)], loop);
    AtCall(fr, Br(lbl));
    LoopHead(fr.fn.code, fr.pc + 1, s, env, sigs, ret, temp, lbl);
    JumpTo(w, fr, mem, Br(lbl), lbl, fr.pc + 1);
    var f1 := fr.(pc := fr.pc + 1);
    var k, f2 := SimLoop(w, s, sc, b, f1, mem, ret, temp, lbl, fuel);
    var r := W.ExecStmt(w.p, s, b, mem, fuel);
    n, fr' := 1 + k, f2;
    IterPlus(w.m, Running(fr, w.callers, mem), 1, k);
    if r.Ok? && r.v.Next? {
      JumpShifts(fr, fr.pc + 1, temp, |sc|);
      ShiftedTrans(fr, f1, f2, fr.pc + 1, f1.pc + |loop|, temp, temp, |sc|, |sc|);
      ShiftedFacts(fr, f2, f1.pc + |loop|, temp, |sc|);
      CloseRel(sc, W.CheckStmt(s.body, sc, sigs, ret).value.sc, b, fr.slots, f2.slots);
    } else if !r.Ok? {
      FailedLater(w, fr, mem, 1, f1, mem, k, r, r, fuel);
    }
  }

  /** One statement after another. */
  lemma {:induction false} SeqEnds(w: World, fr: Frame, mem: Memory, n1: nat, f1: Frame, h: GenS, flow: W.Flow,
          n2: nat, f2: Frame, t: GenS, r: W.Res<W.Flow>, g: GenS, temp: nat, sc: W.Scope, sc1: W.Scope, sc': W.Scope,
          fuel: nat)
    requires StmtDone(w, fr, mem, n1, f1, h, temp, sc, sc1, flow)
    requires StmtEnds(w, f1, flow.mem, n2, f2, t, h.temp, sc1, sc', r, fuel)
    requires temp <= h.temp <= t.temp && |sc| <= |sc1| <= |sc'|
    requires g.code == h.code + t.code && g.exits == t.exits && g.temp == t.temp
    requires g.last == if t.exits then None else if t.last.Some? then t.last else h.last
    ensures StmtEnds(w, fr, mem, n1 + n2, f2, g, temp, sc, sc', W.Joined(flow.last, r), fuel)
  {
    hide Iter, Rel, SsaName, Leave, EvalOp, Fits, KeepsSlots, Keeps;
    IterPlus(w.m, Running(fr, w.callers, mem), n1, n2);
    if r.Ok? && r.v.Next? {
      ShiftedTrans(fr, f1, f2, f1.pc, f1.pc + |t.code|, temp, h.temp, |sc|, |sc1|);
      if t.last.None? && h.last.Some? {
        SettledKeeps(h.last.value.op, f1, f2, h.temp, |sc1|, flow.last.value);
      }
    }
  }

  lemma {:induction false} SimList(w: World, ss: seq<W.Stmt>, sc: W.Scope, b: W.Bindings, fr: Frame, mem: Memory,
          ret: TypeRef, temp: nat, lbl: nat, fuel: nat)
    returns (n: nat, fr': Frame)
    requires InBody(w, sc, b, fr, GenList(ss, W.Plain(sc), W.SigsOf(w.p), ret, temp, lbl).code, ret)
    requires W.CheckList(ss, sc, W.SigsOf(w.p), ret).Some?
    ensures StmtEnds(w, fr, mem, n, fr', GenList(ss, W.Plain(sc), W.SigsOf(w.p), ret, temp, lbl), temp, sc,
                     W.CheckList(ss, sc, W.SigsOf(w.p), ret).value.sc, W.ExecList(w.p, ss, b, mem, fuel), fuel)
    decreases fuel, ss, 0
  {
    hide Iter, Rel, SsaName, Linked, At, W.ExecStmt, GenStmt, W.CheckStmt, W.SigsOf, EvalOp, Fits, Settled, Leave,
      W.Exits;
    var env, sigs := W.Plain(sc), W.SigsOf(w.p);
    n, fr' := 0, fr;
    if ss == [] {
      ZeroSteps(w, fr, mem);
    } else {
      var h := GenStmt(ss[0], env, sigs, ret, temp, lbl);
      StmtShape(ss[0], env, sigs, ret, temp, lbl);
      CheckTracksGen(ss[0], sc, sigs, ret, temp, lbl);
      CheckExtends(ss[0], sc, sigs, ret);
      var sc1 := W.CheckStmt(ss[0], sc, sigs, ret).value.sc;
      var r := W.ExecStmt(w.p, ss[0], b, mem, fuel);
      if h.exits {
        n, fr' := SimStmt(w, ss[0], sc, b, fr, mem, ret, temp, lbl, fuel);
      } else {
        var t := GenList(ss[1..], h.env, sigs, ret, h.temp, h.lbl);
        AtAppend(fr.fn.code, fr.pc, h.code, t.code);
        n, fr' := SimStmt(w, ss[0], sc, b, fr, mem, ret, temp, lbl, fuel);
        if r.Ok? && r.v.Next? {
          var n1, f1 := n, fr';
          var n2, f2 := SimList(w, ss[1..], sc1, r.v.b, f1, r.v.mem, ret, h.temp, h.lbl, fuel);
          n, fr' := n1 + n2, f2;
          ListShape(ss[1..], h.env, sigs, ret, h.temp, h.lbl);
          ListCheckExtends(ss[1..], sc1, sigs, ret);
          SeqEnds(w, fr, mem, n1, f1, h, r.v, n2, f2, t, W.ExecList(w.p, ss[1..], r.v.b, r.v.mem, fuel),
                  GenList(ss, env, sigs, ret, temp, lbl), temp, sc, sc1, W.CheckList(ss, sc, sigs, ret).value.sc, fuel);
        }
      }
    }
  }
}
