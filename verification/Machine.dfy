/** Running short pieces of emitted code: single instructions and the operators. */
module Machine {
  import opened Wrappers
  import opened Types
  import opened Values
  import opened Env
  import opened Ir
  import opened Gen
  import opened Blocks
  import opened Scoping
  import W = Weave

  /** `frag` sits in `code` at position `off`. */
  ghost predicate At(code: seq<Instr>, off: nat, frag: seq<Instr>) {
    off + |frag| <= |code| && code[off..off + |frag|] == frag
  }

  lemma {:induction false} AtAppend(code: seq<Instr>, off: nat, a: seq<Instr>, b: seq<Instr>)
    requires At(code, off, a + b)
    ensures At(code, off, a) && At(code, off + |a|, b)
  {
    assert code[off..off + |a|] == (a + b)[..|a|];
    assert code[off + |a|..off + |a| + |b|] == (a + b)[|a|..];
  }

  lemma {:induction false} AtHead(code: seq<Instr>, off: nat, frag: seq<Instr>, i: nat)
    requires At(code, off, frag) && i < |frag|
    ensures code[off + i] == frag[i]
  {
    assert code[off..off + |frag|][i] == frag[i];
  }

  /** Temps below `k` keep their values. */
  ghost predicate Keeps(t: map<nat, Value>, t': map<nat, Value>, k: nat) {
    forall i: nat :: i < k && i in t ==> i in t' && t'[i] == t[i]
  }

  /** The frame after running `k` instructions that only define temps from `temp` on. */
  ghost predicate Moved(fr: Frame, fr': Frame, k: nat, temp: nat) {
    fr' == fr.(pc := fr.pc + k, temps := fr'.temps) && Keeps(fr.temps, fr'.temps, temp)
  }

  /** An operand that code from `temp` on, and declarations from `n` on, cannot disturb. */
  ghost predicate Settled(o: Operand, temp: nat, n: nat) {
    (o.Temp? ==> o.t < temp) &&
    (o.Slot? ==> exists x: string, k: nat :: k < n && o.slot == SsaName(x, k))
  }

  lemma {:induction false} SettledKeeps(o: Operand, fr: Frame, fr': Frame, temp: nat, n: nat, v: Value)
    requires Settled(o, temp, n) && EvalOp(o, fr) == Some(v)
    requires fr'.fn == fr.fn && fr'.args == fr.args
    requires Keeps(fr.temps, fr'.temps, temp) && KeepsSlots(fr.slots, fr'.slots, n)
    ensures EvalOp(o, fr') == Some(v)
  {
  }

  lemma {:induction false} StepAt(m: Module, s: State, n: nat)
    ensures Iter(m, s, n + 1) == Step(m, Iter(m, s, n))
  {
    IterPlus(m, s, n, 1);
    assert Iter(m, Iter(m, s, n), 1) == Iter(m, Step(m, Iter(m, s, n)), 0);
  }

  /** The frame after an instruction that defines `t`. */
  function Put(fr: Frame, t: nat, v: Value): Frame {
    fr.(pc := fr.pc + 1, temps := fr.temps[t := v])
  }

  lemma {:induction false} PutKeeps(fr: Frame, t: nat, v: Value, o: Operand)
    ensures EvalOp(Temp(t), Put(fr, t, v)) == Some(v)
    ensures o != Temp(t) ==> EvalOp(o, Put(fr, t, v)) == EvalOp(o, fr)
    ensures Moved(fr, Put(fr, t, v), 1, t)
  {
  }

  lemma {:induction false} MovedOp(o: Operand, fr: Frame, fr': Frame, k: nat, t: nat, v: Value)
    requires Moved(fr, fr', k, t) && EvalOp(o, fr) == Some(v) && (o.Temp? ==> o.t < t)
    ensures EvalOp(o, fr') == Some(v)
  {
  }

  lemma {:induction false} MovedTrans(f0: Frame, f1: Frame, f2: Frame, j: nat, k: nat, t0: nat, t1: nat)
    requires Moved(f0, f1, j, t0) && Moved(f1, f2, k, t1) && t0 <= t1
    ensures Moved(f0, f2, j + k, t0)
  {
  }

  /** One instruction defining a temp, or going wrong. */
  lemma {:induction false} RunDefine(m: Module, fr: Frame, callers: seq<Frame>, mem: Memory, i: Instr, t: nat,
          v: Option<Value>)
    requires fr.pc < |fr.fn.code| && fr.fn.code[fr.pc] == i
    requires Exec(m, fr, callers, mem, i) == Define(fr, callers, mem, t, v)
    ensures Iter(m, Running(fr, callers, mem), 1) ==
            if v.None? then Wrong else Running(Put(fr, t, v.value), callers, mem)
  {
    StepAt(m, Running(fr, callers, mem), 0);
  }

  lemma {:induction false} RunIcmp(m: Module, fr: Frame, callers: seq<Frame>, mem: Memory, t: nat, pred: Pred,
          ty: TypeRef, a: Operand, b: Operand, x: Value, y: Value)
    requires fr.pc < |fr.fn.code| && fr.fn.code[fr.pc] == Icmp(t, pred, ty, a, b)
    requires EvalOp(a, fr) == Some(x) && EvalOp(b, fr) == Some(y) && EvalIcmp(pred, ty, x, y).Some?
    ensures Iter(m, Running(fr, callers, mem), 1) == Running(Put(fr, t, EvalIcmp(pred, ty, x, y).value), callers, mem)
  {
    RunDefine(m, fr, callers, mem, Icmp(t, pred, ty, a, b), t, EvalIcmp(pred, ty, x, y));
  }

  lemma {:induction false} RunZext(m: Module, fr: Frame, callers: seq<Frame>, mem: Memory, t: nat, u: nat, b: bool)
    requires fr.pc < |fr.fn.code| && fr.fn.code[fr.pc] == Zext(t, Temp(u)) && EvalOp(Temp(u), fr) == Some(Bool(b))
    ensures Iter(m, Running(fr, callers, mem), 1) == Running(Put(fr, t, W.Truth(b)), callers, mem)
  {
    RunDefine(m, fr, callers, mem, Zext(t, Temp(u)), t, Some(W.Truth(b)));
  }

  lemma {:induction false} RunBool(m: Module, fr: Frame, callers: seq<Frame>, mem: Memory, t: nat, op: BoolOp, u: nat,
          w: nat, x: bool, y: bool)
    requires fr.pc < |fr.fn.code| && fr.fn.code[fr.pc] == BoolOp(t, op, Temp(u), Temp(w))
    requires EvalOp(Temp(u), fr) == Some(Bool(x)) && EvalOp(Temp(w), fr) == Some(Bool(y))
    ensures Iter(m, Running(fr, callers, mem), 1)
         == Running(Put(fr, t, EvalBool(op, Bool(x), Bool(y)).value), callers, mem)
  {
    RunDefine(m, fr, callers, mem, BoolOp(t, op, Temp(u), Temp(w)), t, EvalBool(op, Bool(x), Bool(y)));
  }

  // ---------- operators ----------

  /** Operand values an operator can be compiled for. */
  ghost predicate OperandValues(op: W.Operator, l: GVal, r: GVal, a: Value, b: Value) {
    if op.Cmp? then
      var ty := W.OperandType(op, l.ty, r.ty);
      Convertible(l, a, ty) && Convertible(r, b, ty)
    else a.Int? && b.Int?
  }

  ghost predicate PtrOperand(l: GVal, a: Value) {
    if W.IsPtr(l.ty) then Fits(a, l.ty) else l == ZERO && a == Int(0)
  }

  /** A value of the wanted type, or one that stage0 converts. */
  ghost predicate Convertible(l: GVal, a: Value, ty: TypeRef) {
    if ty.I8Ptr? then PtrOperand(l, a)
    else if ty.I32? && W.IsPtr(l.ty) then Fits(a, l.ty)
    else l.ty == ty && Fits(a, ty)
  }

  lemma {:induction false} SimArith(m: Module, fr: Frame, callers: seq<Frame>, mem: Memory, o: W.ArithOp, l: GVal,
          r: GVal, a: Value, b: Value, t: nat)
    returns (n: nat, fr': Frame)
    requires At(fr.fn.code, fr.pc, GenTail(W.Arith(o), l, r, t).code)
    requires EvalOp(l.op, fr) == Some(a) && EvalOp(r.op, fr) == Some(b) && a.Int? && b.Int?
    ensures TailEnd(m, fr, callers, mem, n, fr', GenTail(W.Arith(o), l, r, t), t, W.Apply(W.Arith(o), a, b))
  {
    hide Step;
    var i := Bin(t, BinOpOf(o), l.op, r.op);
    AtHead(fr.fn.code, fr.pc, [i], 0);
    n, fr' := 1, fr;
    var v := W.Apply(W.Arith(o), a, b);
    RunDefine(m, fr, callers, mem, i, t, v);
    if v.Some? {
      fr' := Put(fr, t, v.value);
    }
  }

  /** How the instructions of an operator leave the machine. */
  ghost predicate TailEnd(m: Module, fr: Frame, callers: seq<Frame>, mem: Memory, n: nat, fr': Frame, g: GenE, t: nat,
          r: Option<Value>)
  {
    var s := Iter(m, Running(fr, callers, mem), n);
    match r
    case None => s == Wrong
    case Some(v) =>
      s == Running(fr', callers, mem) && Moved(fr, fr', |g.code|, t) && EvalOp(g.v.op, fr') == r && v.Int?
  }

  /** Two tests against zero. */
  lemma {:induction false} RunTests(m: Module, fr: Frame, callers: seq<Frame>, mem: Memory, l: Operand, r: Operand,
          x: int, y: int, t: nat)
    returns (fr': Frame)
    requires At(fr.fn.code, fr.pc, [Icmp(t, Ne, I32, l, Const(0)), Icmp(t + 1, Ne, I32, r, Const(0))])
    requires EvalOp(l, fr) == Some(Int(x)) && EvalOp(r, fr) == Some(Int(y)) && (r.Temp? ==> r.t < t)
    ensures Iter(m, Running(fr, callers, mem), 2) == Running(fr', callers, mem) && Moved(fr, fr', 2, t)
    ensures EvalOp(Temp(t), fr') == Some(Bool(x != 0)) && EvalOp(Temp(t + 1), fr') == Some(Bool(y != 0))
  {
    hide Step;
    var tail := [Icmp(t, Ne, I32, l, Const(0)), Icmp(t + 1, Ne, I32, r, Const(0))];
    AtHead(fr.fn.code, fr.pc, tail, 0);
    AtHead(fr.fn.code, fr.pc, tail, 1);
    var f1 := Put(fr, t, Bool(x != 0));
    RunIcmp(m, fr, callers, mem, t, Ne, I32, l, Const(0), Int(x), Int(0));
    PutKeeps(fr, t, Bool(x != 0), r);
    fr' := Put(f1, t + 1, Bool(y != 0));
    RunIcmp(m, f1, callers, mem, t + 1, Ne, I32, r, Const(0), Int(y), Int(0));
    PutKeeps(f1, t + 1, Bool(y != 0), Temp(t));
    IterPlus(m, Running(fr, callers, mem), 1, 1);
    MovedTrans(fr, f1, fr', 1, 1, t, t + 1);
  }

  /** Combining two truth values and widening the result. */
  lemma {:induction false} RunCombine(m: Module, fr: Frame, callers: seq<Frame>, mem: Memory, o: W.LogicOp, x: bool,
          y: bool, t: nat)
    returns (fr': Frame)
    requires At(fr.fn.code, fr.pc, [BoolOp(t + 2, BoolOpOf(o), Temp(t), Temp(t + 1)), Zext(t + 3, Temp(t + 2))])
    requires EvalOp(Temp(t), fr) == Some(Bool(x)) && EvalOp(Temp(t + 1), fr) == Some(Bool(y))
    ensures Iter(m, Running(fr, callers, mem), 2) == Running(fr', callers, mem) && Moved(fr, fr', 2, t + 2)
    ensures EvalOp(Temp(t + 3), fr') == Some(W.Truth(if o.Both? then x && y else x || y))
  {
    hide Step;
    var tail := [BoolOp(t + 2, BoolOpOf(o), Temp(t), Temp(t + 1)), Zext(t + 3, Temp(t + 2))];
    AtHead(fr.fn.code, fr.pc, tail, 0);
    AtHead(fr.fn.code, fr.pc, tail, 1);
    var v := if o.Both? then x && y else x || y;
    var f1 := Put(fr, t + 2, Bool(v));
    RunBool(m, fr, callers, mem, t + 2, BoolOpOf(o), t, t + 1, x, y);
    PutKeeps(fr, t + 2, Bool(v), Temp(t));
    fr' := Put(f1, t + 3, W.Truth(v));
    RunZext(m, f1, callers, mem, t + 3, t + 2, v);
    PutKeeps(f1, t + 3, W.Truth(v), Temp(t));
    IterPlus(m, Running(fr, callers, mem), 1, 1);
    MovedTrans(fr, f1, fr', 1, 1, t + 2, t + 3);
  }

  lemma {:induction false} SimLogic(m: Module, fr: Frame, callers: seq<Frame>, mem: Memory, o: W.LogicOp, l: GVal,
          r: GVal, a: Value, b: Value, t: nat)
    returns (fr': Frame)
    requires At(fr.fn.code, fr.pc, GenTail(W.Logic(o), l, r, t).code)
    requires EvalOp(l.op, fr) == Some(a) && EvalOp(r.op, fr) == Some(b) && a.Int? && b.Int?
    requires r.op.Temp? ==> r.op.t < t
    ensures TailEnd(m, fr, callers, mem, 4, fr', GenTail(W.Logic(o), l, r, t), t, W.Apply(W.Logic(o), a, b))
  {
    hide Step;
    var p := [Icmp(t, Ne, I32, l.op, Const(0)), Icmp(t + 1, Ne, I32, r.op, Const(0))];
    var q := [BoolOp(t + 2, BoolOpOf(o), Temp(t), Temp(t + 1)), Zext(t + 3, Temp(t + 2))];
    assert GenTail(W.Logic(o), l, r, t).code == p + q;
    AtAppend(fr.fn.code, fr.pc, p, q);
    var f1 := RunTests(m, fr, callers, mem, l.op, r.op, a.n, b.n, t);
    fr' := RunCombine(m, f1, callers, mem, o, a.n != 0, b.n != 0, t);
    IterPlus(m, Running(fr, callers, mem), 2, 2);
    MovedTrans(fr, f1, fr', 2, 2, t, t + 2);
  }

  /** A conversion yields the value at the wanted type. */
  lemma {:induction false} SimEnsure(m: Module, fr: Frame, callers: seq<Frame>, mem: Memory, l: GVal, a: Value,
          ty: TypeRef, t: nat)
    returns (n: nat, fr': Frame)
    requires At(fr.fn.code, fr.pc, Ensure(l, ty, t).code)
    requires EvalOp(l.op, fr) == Some(a) && Convertible(l, a, ty)
    ensures var g := Ensure(l, ty, t);
            Iter(m, Running(fr, callers, mem), n) == Running(fr', callers, mem) && g.v.ty == ty &&
            Moved(fr, fr', |g.code|, t) && EvalOp(g.v.op, fr') == Some(W.Coerce(a, ty)) && Fits(W.Coerce(a, ty), ty) &&
            ((g.v.op == l.op && g.temp == t) || (g.v.op == Temp(t) && g.temp == t + 1))
  {
    hide Step;
    var g := Ensure(l, ty, t);
    n, fr' := 0, fr;
    if g.code != [] {
      AtHead(fr.fn.code, fr.pc, g.code, 0);
      RunDefine(m, fr, callers, mem, g.code[0], t, Some(W.Coerce(a, ty)));
      n, fr' := 1, Put(fr, t, W.Coerce(a, ty));
    }
  }

  /** The compare-and-widen pair that ends every comparison. */
  lemma {:induction false} RunCompare(m: Module, fr: Frame, callers: seq<Frame>, mem: Memory, o: W.CmpOp, ty: TypeRef,
          a: Operand, b: Operand, x: Value, y: Value, t: nat, truth: bool)
    returns (fr': Frame)
    requires At(fr.fn.code, fr.pc, [Icmp(t, PredOf(o), ty, a, b), Zext(t + 1, Temp(t))])
    requires EvalOp(a, fr) == Some(x) && EvalOp(b, fr) == Some(y)
    requires EvalIcmp(PredOf(o), ty, x, y) == Some(Bool(truth))
    ensures Iter(m, Running(fr, callers, mem), 2) == Running(fr', callers, mem)
    ensures Moved(fr, fr', 2, t) && EvalOp(Temp(t + 1), fr') == Some(W.Truth(truth))
  {
    hide Step;
    var tail := [Icmp(t, PredOf(o), ty, a, b), Zext(t + 1, Temp(t))];
    AtHead(fr.fn.code, fr.pc, tail, 0);
    AtHead(fr.fn.code, fr.pc, tail, 1);
    var f1 := Put(fr, t, Bool(truth));
    RunIcmp(m, fr, callers, mem, t, PredOf(o), ty, a, b, x, y);
    PutKeeps(fr, t, Bool(truth), Temp(t));
    fr' := Put(f1, t + 1, W.Truth(truth));
    RunZext(m, f1, callers, mem, t + 1, t, truth);
    PutKeeps(f1, t + 1, W.Truth(truth), Temp(t));
    IterPlus(m, Running(fr, callers, mem), 1, 1);
    MovedTrans(fr, f1, fr', 1, 1, t, t + 1);
  }

  /** A comparison converts its operands, compares and widens. */
  lemma {:induction false} SimCmp(m: Module, fr: Frame, callers: seq<Frame>, mem: Memory, o: W.CmpOp, l: GVal,
          r: GVal, a: Value, b: Value, t: nat)
    returns (n: nat, fr': Frame)
    requires At(fr.fn.code, fr.pc, GenCmp(o, l, r, t).code)
    requires EvalOp(l.op, fr) == Some(a) && EvalOp(r.op, fr) == Some(b) && OperandValues(W.Cmp(o), l, r, a, b)
    requires (l.op.Temp? ==> l.op.t < t) && (r.op.Temp? ==> r.op.t < t)
    ensures TailEnd(m, fr, callers, mem, n, fr', GenCmp(o, l, r, t), t, W.Apply(W.Cmp(o), a, b))
  {
    hide Step, Iter, At, Ensure, EvalOp, Convertible, W.OperandType, W.Coerce, W.Apply;
    var ty := W.OperandType(W.Cmp(o), l.ty, r.ty);
    var cl := Ensure(l, ty, t + 2);
    var cr := Ensure(r, ty, cl.temp);
    var tail := [Icmp(t, PredOf(o), ty, cl.v.op, cr.v.op), Zext(t + 1, Temp(t))];
    AtAppend(fr.fn.code, fr.pc, cl.code + cr.code, tail);
    var x, y := W.Coerce(a, ty), W.Coerce(b, ty);
    var truth := Compared(o, l, r, a, b);
    var n1, f1 := SimBoth(m, fr, callers, mem, l, r, a, b, ty, t);
    fr' := RunCompare(m, f1, callers, mem, o, ty, cl.v.op, cr.v.op, x, y, t, truth);
    IterPlus(m, Running(fr, callers, mem), n1, 2);
    n := n1 + 2;
    assert Moved(fr, fr', |cl.code| + |cr.code| + 2, t);
  }

  /** The machine compares the converted operands as the source compares the operands. */
  lemma {:induction false} Compared(o: W.CmpOp, l: GVal, r: GVal, a: Value, b: Value) returns (truth: bool)
    requires OperandValues(W.Cmp(o), l, r, a, b)
    ensures var ty := W.OperandType(W.Cmp(o), l.ty, r.ty);
            EvalIcmp(PredOf(o), ty, W.Coerce(a, ty), W.Coerce(b, ty)) == Some(Bool(truth)) &&
            W.Apply(W.Cmp(o), a, b) == Some(W.Truth(truth))
  {
    var ty := W.OperandType(W.Cmp(o), l.ty, r.ty);
    var x, y := W.Coerce(a, ty), W.Coerce(b, ty);
    truth := if ty.I8Ptr? then (x == y) == o.Equal? else W.Holds(o, x.n, y.n);
  }

  lemma {:induction false} SimBoth(m: Module, fr: Frame, callers: seq<Frame>, mem: Memory, l: GVal, r: GVal, a: Value,
          b: Value, ty: TypeRef, t: nat)
    returns (n: nat, fr': Frame)
    requires var cl := Ensure(l, ty, t + 2); At(fr.fn.code, fr.pc, cl.code + Ensure(r, ty, cl.temp).code)
    requires EvalOp(l.op, fr) == Some(a) && EvalOp(r.op, fr) == Some(b)
    requires Convertible(l, a, ty) && Convertible(r, b, ty)
    requires (l.op.Temp? ==> l.op.t < t) && (r.op.Temp? ==> r.op.t < t)
    ensures var cl := Ensure(l, ty, t + 2);
            var cr := Ensure(r, ty, cl.temp);
            Iter(m, Running(fr, callers, mem), n) == Running(fr', callers, mem) &&
            Moved(fr, fr', |cl.code| + |cr.code|, t + 2) &&
            EvalOp(cl.v.op, fr') == Some(W.Coerce(a, ty)) && EvalOp(cr.v.op, fr') == Some(W.Coerce(b, ty))
  {
    hide Step, Iter, At, Fits, EvalOp, W.Coerce, Convertible, Ensure;
    var cl := Ensure(l, ty, t + 2);
    var cr := Ensure(r, ty, cl.temp);
    AtAppend(fr.fn.code, fr.pc, cl.code, cr.code);
    var n1, f1 := SimEnsure(m, fr, callers, mem, l, a, ty, t + 2);
    MovedOp(r.op, fr, f1, |cl.code|, t + 2, b);
    var n2, f2 := SimEnsure(m, f1, callers, mem, r, b, ty, cl.temp);
    IterPlus(m, Running(fr, callers, mem), n1, n2);
    n, fr' := n1 + n2, f2;
    MovedTrans(fr, f1, f2, |cl.code|, |cr.code|, t + 2, cl.temp);
    MovedOp(cl.v.op, f1, f2, |cr.code|, cl.temp, W.Coerce(a, ty));
  }

  lemma {:induction false} SimTail(m: Module, fr: Frame, callers: seq<Frame>, mem: Memory, op: W.Operator, l: GVal,
          r: GVal, a: Value, b: Value, t: nat)
    returns (n: nat, fr': Frame)
    requires At(fr.fn.code, fr.pc, GenTail(op, l, r, t).code)
    requires EvalOp(l.op, fr) == Some(a) && EvalOp(r.op, fr) == Some(b)
    requires OperandValues(op, l, r, a, b)
    requires (l.op.Temp? ==> l.op.t < t) && (r.op.Temp? ==> r.op.t < t)
    ensures TailEnd(m, fr, callers, mem, n, fr', GenTail(op, l, r, t), t, W.Apply(op, a, b))
  {
    hide Step;
    match op
    case Arith(o) => n, fr' := SimArith(m, fr, callers, mem, o, l, r, a, b, t);
    case Cmp(o) => n, fr' := SimCmp(m, fr, callers, mem, o, l, r, a, b, t);
    case Logic(o) =>
      n := 4;
      fr' := SimLogic(m, fr, callers, mem, o, l, r, a, b, t);
  }
}
