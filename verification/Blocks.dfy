/** The shape of emitted code: blocks, labels and temps. */
module Blocks {
  import opened Wrappers
  import opened Types
  import opened Env
  import opened Ir
  import opened Gen
  import W = Weave

  predicate IsTerminator(i: Instr) {
    i.Br? || i.CondBr? || i.Ret? || i.RetVoid?
  }

  predicate Defines(i: Instr, t: nat) {
    match i
    case Load(u, _, _, _) => u == t
    case Bin(u, _, _, _) => u == t
    case Icmp(u, _, _, _, _) => u == t
    case BoolOp(u, _, _, _) => u == t
    case Zext(u, _) => u == t
    case PtrToInt(u, _, _) => u == t
    case NullToPtr(u) => u == t
    case BitcastI8(u, _, _) => u == t
    case Call(d, _, _, _) => d == Some(t)
    case _ => false
  }

  predicate Refers(i: Instr, l: nat) {
    (i.Br? && i.l == l) || (i.CondBr? && (i.l1 == l || i.l2 == l))
  }

  function LabelDefs(code: seq<Instr>, l: nat): nat {
    if code == [] then 0 else (if code[0] == Label(l) then 1 else 0) + LabelDefs(code[1..], l)
  }

  function TempDefs(code: seq<Instr>, t: nat): nat {
    if code == [] then 0 else (if Defines(code[0], t) then 1 else 0) + TempDefs(code[1..], t)
  }

  function LabelRefs(code: seq<Instr>, l: nat): nat {
    if code == [] then 0 else (if Refers(code[0], l) then 1 else 0) + LabelRefs(code[1..], l)
  }

  /** Follows code that starts inside a block (`open`) or just after a terminator.  The
      result says where it ends; None means an instruction outside any block or a label
      inside one. */
  function Scan(code: seq<Instr>, open: bool): Option<bool> {
    if code == [] then Some(open)
    else if code[0].Label? then (if open then None else Scan(code[1..], true))
    else if !open then None
    else Scan(code[1..], !IsTerminator(code[0]))
  }

  function ScanFrom(code: seq<Instr>, o: Option<bool>): Option<bool> {
    if o.None? then None else Scan(code, o.value)
  }

  /** Labels, temps and references of `code`, counted, and its scan. */
  lemma {:induction false} Append(a: seq<Instr>, b: seq<Instr>, l: nat, t: nat, o: bool)
    ensures LabelDefs(a + b, l) == LabelDefs(a, l) + LabelDefs(b, l)
    ensures LabelRefs(a + b, l) == LabelRefs(a, l) + LabelRefs(b, l)
    ensures TempDefs(a + b, t) == TempDefs(a, t) + TempDefs(b, t)
    ensures Scan(a + b, o) == ScanFrom(b, Scan(a, o))
  {
    if a == [] {
      assert a + b == b;
    } else {
      var o' := if a[0].Label? then true else !IsTerminator(a[0]);
      Append(a[1..], b, l, t, o');
      assert (a + b)[1..] == a[1..] + b;
    }
  }

  lemma {:induction false} Single(i: Instr, l: nat, t: nat)
    ensures LabelDefs([i], l) == if i == Label(l) then 1 else 0
    ensures LabelRefs([i], l) == if Refers(i, l) then 1 else 0
    ensures TempDefs([i], t) == if Defines(i, t) then 1 else 0
    ensures !i.Label? ==> Scan([i], true) == Some(!IsTerminator(i))
    ensures i.Label? ==> Scan([i], false) == Some(true)
  {
  }

  lemma {:induction false} Append4(a: seq<Instr>, b: seq<Instr>, c: seq<Instr>, d: seq<Instr>, l: nat, t: nat)
    ensures LabelDefs(a + b + c + d, l) == LabelDefs(a, l) + LabelDefs(b, l) + LabelDefs(c, l) + LabelDefs(d, l)
    ensures LabelRefs(a + b + c + d, l) == LabelRefs(a, l) + LabelRefs(b, l) + LabelRefs(c, l) + LabelRefs(d, l)
    ensures TempDefs(a + b + c + d, t) == TempDefs(a, t) + TempDefs(b, t) + TempDefs(c, t) + TempDefs(d, t)
    ensures Scan(a + b + c + d, true) == ScanFrom(d, ScanFrom(c, ScanFrom(b, Scan(a, true))))
  {
    Append(a, b, l, t, true);
    Append(a + b, c, l, t, true);
    Append(a + b + c, d, l, t, true);
  }

  /** `Append` for all labels, temps and starting points at once. */
  lemma {:induction false} AppendAll(a: seq<Instr>, b: seq<Instr>)
    ensures forall l: nat {:trigger LabelDefs(a + b, l)} :: LabelDefs(a + b, l) == LabelDefs(a, l) + LabelDefs(b, l)
    ensures forall l: nat {:trigger LabelRefs(a + b, l)} :: LabelRefs(a + b, l) == LabelRefs(a, l) + LabelRefs(b, l)
    ensures forall t: nat {:trigger TempDefs(a + b, t)} :: TempDefs(a + b, t) == TempDefs(a, t) + TempDefs(b, t)
    ensures forall o: bool {:trigger Scan(a + b, o)} :: Scan(a + b, o) == ScanFrom(b, Scan(a, o))
  {
    forall l: nat ensures LabelDefs(a + b, l) == LabelDefs(a, l) + LabelDefs(b, l) { Append(a, b, l, 0, true); }
    forall l: nat ensures LabelRefs(a + b, l) == LabelRefs(a, l) + LabelRefs(b, l) { Append(a, b, l, 0, true); }
    forall t: nat ensures TempDefs(a + b, t) == TempDefs(a, t) + TempDefs(b, t) { Append(a, b, 0, t, true); }
    forall o: bool ensures Scan(a + b, o) == ScanFrom(b, Scan(a, o)) { Append(a, b, 0, 0, o); }
  }

  /** Straight-line code: it defines exactly the temps in [t0, t1), once each. */
  ghost predicate Straight(code: seq<Instr>, t0: nat, t1: nat) {
    t0 <= t1 && Scan(code, true) == Some(true) &&
    (forall l: nat :: LabelDefs(code, l) == 0 && LabelRefs(code, l) == 0) &&
    (forall t: nat :: TempDefs(code, t) == if t0 <= t < t1 then 1 else 0)
  }

  lemma {:induction false} StraightAppend(a: seq<Instr>, b: seq<Instr>, t0: nat, t1: nat, t2: nat)
    requires Straight(a, t0, t1) && Straight(b, t1, t2)
    ensures Straight(a + b, t0, t2)
  {
    AppendAll(a, b);
  }

  /** A plain instruction defining the next temp, or none. */
  lemma {:induction false} StraightOne(i: Instr, t0: nat, t1: nat)
    requires !i.Label? && !IsTerminator(i) && t0 <= t1 <= t0 + 1
    requires forall t: nat :: Defines(i, t) <==> t0 <= t < t1
    ensures Straight([i], t0, t1)
  {
    forall t: nat ensures TempDefs([i], t) == if t0 <= t < t1 then 1 else 0 {
      assert TempDefs([i], t) == (if Defines(i, t) then 1 else 0) + TempDefs([], t);
    }
    assert forall l: nat :: LabelDefs([i], l) == LabelRefs([i], l) == 0;
  }

  lemma {:induction false} EmptyShape(t: nat)
    ensures Straight([], t, t)
  {
  }

  lemma {:induction false} EnsureShape(v: GVal, ty: TypeRef, temp: nat)
    ensures var g := Ensure(v, ty, temp); Straight(g.code, temp, g.temp)
    ensures Ensure(v, ty, temp).fatal || Ensure(v, ty, temp).v.ty == ty
  {
    var g := Ensure(v, ty, temp);
    if g.code != [] {
      StraightOne(g.code[0], temp, temp + 1);
      assert g.code == [g.code[0]];
    }
  }

  lemma {:induction false} EnsuredShape(g: GenE, ty: TypeRef, temp: nat)
    requires Straight(g.code, temp, g.temp)
    ensures var c := Ensured(g, ty); Straight(c.code, temp, c.temp)
  {
    EnsureShape(g.v, ty, g.temp);
    StraightAppend(g.code, Ensure(g.v, ty, g.temp).code, temp, g.temp, Ensure(g.v, ty, g.temp).temp);
  }

  /** Code for later temps may also come first. */
  lemma {:induction false} StraightSwap(a: seq<Instr>, b: seq<Instr>, t0: nat, t1: nat, t2: nat)
    requires Straight(b, t0, t1) && Straight(a, t1, t2)
    ensures Straight(a + b, t0, t2)
  {
    AppendAll(a, b);
  }

  /** In a comparison the conversions take the temps after the two result temps. */
  lemma {:induction false} CmpShape(o: W.CmpOp, l: GVal, r: GVal, temp: nat)
    ensures var g := GenCmp(o, l, r, temp); Straight(g.code, temp, g.temp)
  {
    hide Straight, Ensure;
    var ty := W.OperandType(W.Cmp(o), l.ty, r.ty);
    var a := Ensure(l, ty, temp + 2);
    var b := Ensure(r, ty, a.temp);
    EnsureShape(l, ty, temp + 2);
    EnsureShape(r, ty, a.temp);
    StraightAppend(a.code, b.code, temp + 2, a.temp, b.temp);
    PairShape(Icmp(temp, PredOf(o), ty, a.v.op, b.v.op), Zext(temp + 1, Temp(temp)), temp);
    StraightSwap(a.code + b.code, [Icmp(temp, PredOf(o), ty, a.v.op, b.v.op), Zext(temp + 1, Temp(temp))],
                 temp, temp + 2, b.temp);
  }

  lemma {:induction false} PairShape(i: Instr, z: Instr, temp: nat)
    requires i.Icmp? && i.t == temp && z.Zext? && z.t == temp + 1
    ensures Straight([i, z], temp, temp + 2)
  {
    hide Straight;
    StraightOne(i, temp, temp + 1);
    StraightOne(z, temp + 1, temp + 2);
    StraightAppend([i], [z], temp, temp + 1, temp + 2);
    assert [i] + [z] == [i, z];
  }

  lemma {:induction false} ExprShape(e: W.Expr, env: seq<Entry>, sigs: W.Sigs, temp: nat)
    ensures var g := GenExpr(e, env, sigs, temp); Straight(g.code, temp, g.temp)
    decreases e, 1
  {
    hide TempDefs, LabelDefs, LabelRefs, Scan;
    EmptyShape(temp);
    var g := GenExpr(e, env, sigs, temp);
    match e
    case Const(_) =>
    case Var(x) =>
      if g.code != [] {
        StraightOne(g.code[0], temp, temp + 1);
        assert g.code == [g.code[0]];
      }
    case Binary(_, _, _) => BinaryShape(e, env, sigs, temp);
    case AddrOf(_) =>
    case Deref(ty, p) =>
      var q := GenExpr(p, env, sigs, temp);
      ExprShape(p, env, sigs, temp);
      var i := Load(q.temp, ty, q.v.ty, q.v.op);
      StraightOne(i, q.temp, q.temp + 1);
      StraightAppend(q.code, [i], temp, q.temp, q.temp + 1);
    case CallFn(f, args) =>
      var a := GenArgs(args, f, 0, env, sigs, temp);
      ArgsShape(args, f, 0, env, sigs, temp);
      var i := g.code[|a.code|];
      assert g.code == a.code + [i];
      StraightOne(i, a.temp, g.temp);
      StraightAppend(a.code, [i], temp, a.temp, g.temp);
  }

  lemma {:induction false} BinaryShape(e: W.Expr, env: seq<Entry>, sigs: W.Sigs, temp: nat)
    requires e.Binary?
    ensures var g := GenBinary(e, env, sigs, temp); Straight(g.code, temp, g.temp)
    decreases e, 0
  {
    var l0 := GenExpr(e.lhs, env, sigs, temp);
    ExprShape(e.lhs, env, sigs, temp);
    EnsuredShape(l0, I32, temp);
    var l := if e.op.Cmp? then l0 else Ensured(l0, I32);
    var r0 := GenExpr(e.rhs, env, sigs, l.temp);
    ExprShape(e.rhs, env, sigs, l.temp);
    EnsuredShape(r0, I32, l.temp);
    var r := if e.op.Cmp? then r0 else Ensured(r0, I32);
    StraightAppend(l.code, r.code, temp, l.temp, r.temp);
    var tail := GenTail(e.op, l.v, r.v, r.temp);
    TailShape(e.op, l.v, r.v, r.temp);
    StraightAppend(l.code + r.code, tail.code, temp, r.temp, tail.temp);
  }

  lemma {:induction false} TailShape(op: W.Operator, l: GVal, r: GVal, t: nat)
    ensures var g := GenTail(op, l, r, t); Straight(g.code, t, g.temp)
  {
    match op {
      case Arith(o) => StraightOne(Bin(t, BinOpOf(o), l.op, r.op), t, t + 1);
      case Cmp(o) => CmpShape(o, l, r, t);
      case Logic(o) =>
        var i, j := Icmp(t, Ne, I32, l.op, Const(0)), Icmp(t + 1, Ne, I32, r.op, Const(0));
        var k, z := BoolOp(t + 2, BoolOpOf(o), Temp(t), Temp(t + 1)), Zext(t + 3, Temp(t + 2));
        StraightOne(i, t, t + 1);
        StraightOne(j, t + 1, t + 2);
        StraightOne(k, t + 2, t + 3);
        StraightOne(z, t + 3, t + 4);
        StraightAppend([i], [j], t, t + 1, t + 2);
        StraightAppend([i] + [j], [k], t, t + 2, t + 3);
        StraightAppend([i] + [j] + [k], [z], t, t + 3, t + 4);
        assert [i] + [j] + [k] + [z] == [i, j, k, z];
    }
  }

  lemma {:induction false} ArgsShape(es: seq<W.Expr>, f: string, i: nat, env: seq<Entry>, sigs: W.Sigs, temp: nat)
    ensures var g := GenArgs(es, f, i, env, sigs, temp); Straight(g.code, temp, g.temp)
    decreases es, 0
  {
    if es != [] {
      ExprShape(es[0], env, sigs, temp);
      var h0 := GenExpr(es[0], env, sigs, temp);
      EnsuredShape(h0, ParamType(sigs, f, i), temp);
      var h := Ensured(h0, ParamType(sigs, f, i));
      ArgsShape(es[1..], f, i + 1, env, sigs, h.temp);
      StraightAppend(h.code, GenArgs(es[1..], f, i + 1, env, sigs, h.temp).code, temp, h.temp,
                     GenArgs(es[1..], f, i + 1, env, sigs, h.temp).temp);
    }
  }

  /** A piece of a function body: entered inside a block it ends where `exits` says; it
      defines the temps in [t0, t1) once each and labels only in [l0, l1), at most once
      each; and every label it refers to is one it defines. */
  ghost predicate Piece(code: seq<Instr>, exits: bool, t0: nat, t1: nat, l0: nat, l1: nat) {
    t0 <= t1 && l0 <= l1 && Scan(code, true) == Some(!exits) &&
    (forall t: nat :: TempDefs(code, t) == if t0 <= t < t1 then 1 else 0) &&
    (forall l: nat :: LabelDefs(code, l) <= if l0 <= l < l1 then 1 else 0) &&
    (forall l: nat :: LabelRefs(code, l) > 0 ==> LabelDefs(code, l) == 1)
  }

  lemma {:induction false} PieceAppend(a: seq<Instr>, b: seq<Instr>, exits: bool, t0: nat, t1: nat, t2: nat, l0: nat,
          l1: nat, l2: nat)
    requires Piece(a, false, t0, t1, l0, l1) && Piece(b, exits, t1, t2, l1, l2)
    ensures Piece(a + b, exits, t0, t2, l0, l2)
  {
    Append(a, b, 0, 0, true);
    forall m: nat
      ensures TempDefs(a + b, m) == if t0 <= m < t2 then 1 else 0
      ensures LabelDefs(a + b, m) <= if l0 <= m < l2 then 1 else 0
      ensures LabelRefs(a + b, m) > 0 ==> LabelDefs(a + b, m) == 1
    {
      Append(a, b, m, m, true);
    }
  }

  /** A return closes the block. */
  lemma {:induction false} ReturnPiece(code: seq<Instr>, i: Instr, t0: nat, t1: nat, l: nat)
    requires Straight(code, t0, t1) && (i.Ret? || i.RetVoid?)
    ensures Piece(code + [i], true, t0, t1, l, l)
  {
    Append(code, [i], 0, 0, true);
    Single(i, 0, 0);
    forall m: nat
      ensures TempDefs(code + [i], m) == if t0 <= m < t1 then 1 else 0
      ensures LabelDefs(code + [i], m) == LabelRefs(code + [i], m) == 0
    {
      Append(code, [i], m, m, true);
      Single(i, m, m);
    }
  }

  /** `Closed` ends in a terminator and refers to at most one more label. */
  lemma {:induction false} ClosedShape(code: seq<Instr>, exits: bool, l: nat, m: nat, t: nat)
    requires Scan(code, true) == Some(!exits)
    ensures Scan(Closed(code, exits, l), true) == Some(false)
    ensures TempDefs(Closed(code, exits, l), t) == TempDefs(code, t)
    ensures LabelDefs(Closed(code, exits, l), m) == LabelDefs(code, m)
    ensures LabelRefs(Closed(code, exits, l), m) == LabelRefs(code, m) + if !exits && m == l then 1 else 0
  {
    Append(code, [Br(l)], m, t, true);
    Single(Br(l), m, t);
  }

  /** A labelled block body: like a piece, but it starts with the label `start` and, if
      `jumps`, ends in a jump to `target`, defined elsewhere. */
  ghost predicate Branch(code: seq<Instr>, start: nat, jumps: bool, target: nat, t0: nat, t1: nat, l0: nat, l1: nat) {
    t0 <= t1 && l0 <= l1 && Scan(code, false) == Some(false) &&
    (forall t: nat :: TempDefs(code, t) == if t0 <= t < t1 then 1 else 0) &&
    (forall l: nat :: LabelDefs(code, l) <= if l == start || l0 <= l < l1 then 1 else 0) &&
    LabelDefs(code, start) == 1 &&
    (forall l: nat :: LabelRefs(code, l) > 0 ==> LabelDefs(code, l) == 1 || (jumps && l == target))
  }

  lemma {:induction false} BranchShape(code: seq<Instr>, exits: bool, start: nat, target: nat, t0: nat, t1: nat,
          l0: nat, l1: nat)
    requires Piece(code, exits, t0, t1, l0, l1) && start < l0
    ensures Branch([Label(start)] + Closed(code, exits, target), start, !exits, target, t0, t1, l0, l1)
  {
    var c := Closed(code, exits, target);
    var s := [Label(start)];
    ClosedShape(code, exits, target, 0, 0);
    Append(s, c, 0, 0, false);
    Single(Label(start), start, 0);
    ClosedShape(code, exits, target, start, 0);
    Append(s, c, start, 0, false);
    forall m: nat
      ensures TempDefs(s + c, m) == if t0 <= m < t1 then 1 else 0
      ensures LabelDefs(s + c, m) <= if m == start || l0 <= m < l1 then 1 else 0
      ensures LabelRefs(s + c, m) > 0 ==> LabelDefs(s + c, m) == 1 || (!exits && m == target)
    {
      ClosedShape(code, exits, target, m, m);
      Append(s, c, m, m, false);
      Single(Label(start), m, m);
    }
  }

  /** The code of a test: it branches to `l1` or `l2`. */
  ghost predicate Test(code: seq<Instr>, t0: nat, t1: nat, l1: nat, l2: nat) {
    t0 <= t1 && Scan(code, true) == Some(false) &&
    (forall t: nat :: TempDefs(code, t) == if t0 <= t < t1 then 1 else 0) &&
    (forall l: nat :: LabelDefs(code, l) == 0) &&
    (forall l: nat :: LabelRefs(code, l) == if l == l1 || l == l2 then 1 else 0)
  }

  lemma {:induction false} TestShape(c: W.Expr, env: seq<Entry>, sigs: W.Sigs, temp: nat, l1: nat, l2: nat)
    ensures var g := GenTest(c, env, sigs, temp, l1, l2); Test(g.code, temp, g.temp, l1, l2)
  {
    ExprShape(c, env, sigs, temp);
    EnsuredShape(GenExpr(c, env, sigs, temp), I32, temp);
    var g := Ensured(GenExpr(c, env, sigs, temp), I32);
    var i, j := Icmp(g.temp, Ne, I32, g.v.op, Const(0)), CondBr(g.temp, l1, l2);
    var code := g.code + [i, j];
    assert code == g.code + [i] + [j] + [];
    Append4(g.code, [i], [j], [], 0, 0);
    Single(i, 0, 0);
    Single(j, 0, 0);
    forall m: nat
      ensures TempDefs(code, m) == if temp <= m < g.temp + 1 then 1 else 0
      ensures LabelDefs(code, m) == 0 && LabelRefs(code, m) == if m == l1 || m == l2 then 1 else 0
    {
      Append4(g.code, [i], [j], [], m, m);
      Single(i, m, m);
      Single(j, m, m);
    }
  }

  /** The end of a construct: the label the earlier parts jump to, if any does. */
  ghost predicate Landing(code: seq<Instr>, needed: bool, target: nat) {
    Scan(code, false) == Some(needed) &&
    (forall t: nat :: TempDefs(code, t) == 0) && (forall l: nat :: LabelRefs(code, l) == 0) &&
    (forall l: nat :: LabelDefs(code, l) == if needed && l == target then 1 else 0)
  }

  lemma {:induction false} LandingShape(needed: bool, target: nat)
    ensures Landing(if needed then [Label(target)] else [], needed, target)
  {
    forall m: nat
      ensures TempDefs([Label(target)], m) == 0 && LabelRefs([Label(target)], m) == 0
      ensures LabelDefs([Label(target)], m) == if m == target then 1 else 0
    {
      Single(Label(target), m, m);
    }
    Single(Label(target), 0, 0);
  }

  /** The four parts of an `if-stmt` make a piece. */
  lemma {:induction false} IfPiece(g: seq<Instr>, t: seq<Instr>, tx: bool, f: seq<Instr>, fx: bool, e: seq<Instr>,
          t0: nat, t1: nat, t2: nat, t3: nat, lbl: nat, l1: nat, l2: nat)
    requires Test(g, t0, t1, lbl, lbl + 1)
    requires Branch(t, lbl, !tx, lbl + 2, t1, t2, lbl + 3, l1)
    requires Branch(f, lbl + 1, !fx, lbl + 2, t2, t3, l1, l2)
    requires Landing(e, !(tx && fx), lbl + 2)
    ensures Piece(g + t + f + e, tx && fx, t0, t3, lbl, l2)
  {
    Append4(g, t, f, e, 0, 0);
    forall m: nat
      ensures TempDefs(g + t + f + e, m) == if t0 <= m < t3 then 1 else 0
      ensures LabelDefs(g + t + f + e, m) <= if lbl <= m < l2 then 1 else 0
      ensures LabelRefs(g + t + f + e, m) > 0 ==> LabelDefs(g + t + f + e, m) == 1
    {
      Append4(g, t, f, e, m, m);
    }
  }

  /** The start of a loop: a jump to the label right behind it. */
  ghost predicate LoopStart(code: seq<Instr>, lbl: nat) {
    Scan(code, true) == Some(true) && (forall t: nat :: TempDefs(code, t) == 0) &&
    (forall l: nat :: LabelRefs(code, l) == if l == lbl then 1 else 0) &&
    (forall l: nat :: LabelDefs(code, l) == if l == lbl then 1 else 0)
  }

  lemma {:induction false} LoopStartShape(lbl: nat)
    ensures LoopStart([Br(lbl), Label(lbl)], lbl)
  {
    var h := [Br(lbl), Label(lbl)];
    assert h == [Br(lbl)] + [Label(lbl)];
    Append([Br(lbl)], [Label(lbl)], 0, 0, true);
    Single(Br(lbl), 0, 0);
    Single(Label(lbl), 0, 0);
    forall m: nat ensures TempDefs(h, m) == 0 && LabelRefs(h, m) == LabelDefs(h, m) == if m == lbl then 1 else 0 {
      Append([Br(lbl)], [Label(lbl)], m, m, true);
      Single(Br(lbl), m, m);
      Single(Label(lbl), m, m);
    }
  }

  /** The four parts of a `while` make a piece. */
  lemma {:induction false} WhilePiece(h: seq<Instr>, g: seq<Instr>, b: seq<Instr>, bx: bool, e: seq<Instr>, t0: nat,
          t1: nat, t2: nat, lbl: nat, l1: nat)
    requires LoopStart(h, lbl) && Test(g, t0, t1, lbl + 1, lbl + 2)
    requires Branch(b, lbl + 1, !bx, lbl, t1, t2, lbl + 3, l1) && Landing(e, true, lbl + 2)
    ensures Piece(h + g + b + e, false, t0, t2, lbl, l1)
  {
    Append4(h, g, b, e, 0, 0);
    forall m: nat
      ensures TempDefs(h + g + b + e, m) == if t0 <= m < t2 then 1 else 0
      ensures LabelDefs(h + g + b + e, m) <= if lbl <= m < l1 then 1 else 0
      ensures LabelRefs(h + g + b + e, m) > 0 ==> LabelDefs(h + g + b + e, m) == 1
    {
      Append4(h, g, b, e, m, m);
    }
  }

  /** Every statement's code is a piece, and it exits exactly when the source does. */
  lemma {:induction false} StmtShape(s: W.Stmt, env: seq<Entry>, sigs: W.Sigs, ret: TypeRef, temp: nat, lbl: nat)
    ensures var g := GenStmt(s, env, sigs, ret, temp, lbl);
            Piece(g.code, g.exits, temp, g.temp, lbl, g.lbl) && g.exits == W.Exits(s)
    decreases s, 1
  {
    var g := GenStmt(s, env, sigs, ret, temp, lbl);
    match s
    case Nop =>
    case Return(e) =>
      ExprShape(e, env, sigs, temp);
      ReturnPiece(GenExpr(e, env, sigs, temp).code, if ret.Void? then RetVoid else Ret(ret, GenExpr(e, env, sigs,
        temp).v.op),
                  temp, g.temp, lbl);
    case StoreTo(ty, p, e) =>
      var q := GenExpr(p, env, sigs, temp);
      ExprShape(p, env, sigs, temp);
      ExprShape(e, env, sigs, q.temp);
      var x := Ensured(GenExpr(e, env, sigs, q.temp), ty);
      EnsuredShape(GenExpr(e, env, sigs, q.temp), ty, q.temp);
      StraightAppend(q.code, x.code, temp, q.temp, x.temp);
      StraightOne(Store(ty, x.v.op, q.v.ty, q.v.op), x.temp, x.temp);
      StraightAppend(q.code + x.code, [Store(ty, x.v.op, q.v.ty, q.v.op)], temp, x.temp, x.temp);
    case Let(x, ty, e, rest) =>
      LetShape(s, env, sigs, ret, temp, lbl);
      var h := GenLetHead(s, env, sigs, temp);
      var env' := env + [Entry(x, ty)];
      ListShape(rest, env', sigs, ret, h.temp, lbl);
      PieceAppend(h.code, GenList(rest, env', sigs, ret, h.temp, lbl).code, g.exits, temp, h.temp, g.temp, lbl, lbl,
        g.lbl);
    case Set(x, e) =>
      var v := GenExpr(e, env, sigs, temp);
      ExprShape(e, env, sigs, temp);
      var i := g.code[|v.code|];
      assert g.code == v.code + [i];
      StraightOne(i, v.temp, v.temp);
      StraightAppend(v.code, [i], temp, v.temp, v.temp);
    case Do(ss) => ListShape(ss, env, sigs, ret, temp, lbl);
    case If(_, _, _) => IfShape(s, env, sigs, ret, temp, lbl);
    case While(_, _) => WhileShape(s, env, sigs, ret, temp, lbl);
    case Eval(e) => ExprShape(e, env, sigs, temp);
  }

  /** The part of a `let` before its nested statements. */
  function GenLetHead(s: W.Stmt, env: seq<Entry>, sigs: W.Sigs, temp: nat): GenE
    requires s.Let?
  {
    var g := GenExpr(s.e, env, sigs, temp);
    var ssa := SsaOf(env + [Entry(s.x, s.ty)], s.x);
    var i := GenInit(g, s.ty);
    GenE(g.code + [Alloca(ssa, s.ty)] + i.code + [StoreSlot(s.ty, i.v.op, ssa)], i.v, i.temp, g.fatal)
  }

  lemma {:induction false} LetShape(s: W.Stmt, env: seq<Entry>, sigs: W.Sigs, ret: TypeRef, temp: nat, lbl: nat)
    requires s.Let?
    ensures var h := GenLetHead(s, env, sigs, temp); Straight(h.code, temp, h.temp)
  {
    var g := GenExpr(s.e, env, sigs, temp);
    var ssa := SsaOf(env + [Entry(s.x, s.ty)], s.x);
    var i := GenInit(g, s.ty);
    ExprShape(s.e, env, sigs, temp);
    StraightOne(Alloca(ssa, s.ty), g.temp, g.temp);
    StraightAppend(g.code, [Alloca(ssa, s.ty)], temp, g.temp, g.temp);
    if i.code != [] {
      StraightOne(i.code[0], g.temp, i.temp);
      assert i.code == [i.code[0]];
    }
    StraightAppend(g.code + [Alloca(ssa, s.ty)], i.code, temp, g.temp, i.temp);
    StraightOne(StoreSlot(s.ty, i.v.op, ssa), i.temp, i.temp);
    StraightAppend(g.code + [Alloca(ssa, s.ty)] + i.code, [StoreSlot(s.ty, i.v.op, ssa)], temp, i.temp, i.temp);
  }

  lemma {:induction false} IfShape(s: W.Stmt, env: seq<Entry>, sigs: W.Sigs, ret: TypeRef, temp: nat, lbl: nat)
    requires s.If?
    ensures var g := GenStmt(s, env, sigs, ret, temp, lbl);
            Piece(g.code, g.exits, temp, g.temp, lbl, g.lbl) && g.exits == W.Exits(s)
    decreases s, 0
  {
    hide Test, Branch, Landing, Piece, GenTest, Closed, GenStmt;
    IfCode(s, env, sigs, ret, temp, lbl);
    var q := GenTest(s.cond, env, sigs, temp, lbl, lbl + 1);
    var t := GenStmt(s.thn, env, sigs, ret, q.temp, lbl + 3);
    var f := GenStmt(s.els, t.env, sigs, ret, t.temp, t.lbl);
    TestShape(s.cond, env, sigs, temp, lbl, lbl + 1);
    StmtShape(s.thn, env, sigs, ret, q.temp, lbl + 3);
    StmtShape(s.els, t.env, sigs, ret, t.temp, t.lbl);
    BranchShape(t.code, t.exits, lbl, lbl + 2, q.temp, t.temp, lbl + 3, t.lbl);
    BranchShape(f.code, f.exits, lbl + 1, lbl + 2, t.temp, f.temp, t.lbl, f.lbl);
    LandingShape(!(t.exits && f.exits), lbl + 2);
    IfPiece(q.code, [Label(lbl)] + Closed(t.code, t.exits, lbl + 2), t.exits,
            [Label(lbl + 1)] + Closed(f.code, f.exits, lbl + 2), f.exits,
            if !(t.exits && f.exits) then [Label(lbl + 2)] else [],
            temp, q.temp, t.temp, f.temp, lbl, t.lbl, f.lbl);
  }

  lemma {:induction false} WhileShape(s: W.Stmt, env: seq<Entry>, sigs: W.Sigs, ret: TypeRef, temp: nat, lbl: nat)
    requires s.While?
    ensures var g := GenStmt(s, env, sigs, ret, temp, lbl); Piece(g.code, g.exits, temp, g.temp, lbl, g.lbl)
    decreases s, 0
  {
    hide Test, Branch, Landing, Piece, GenTest, Closed, LoopStart;
    var q := GenTest(s.cond, env, sigs, temp, lbl + 1, lbl + 2);
    var b := GenStmt(s.body, env, sigs, ret, q.temp, lbl + 3);
    TestShape(s.cond, env, sigs, temp, lbl + 1, lbl + 2);
    StmtShape(s.body, env, sigs, ret, q.temp, lbl + 3);
    BranchShape(b.code, b.exits, lbl + 1, lbl, q.temp, b.temp, lbl + 3, b.lbl);
    LoopStartShape(lbl);
    LandingShape(true, lbl + 2);
    WhilePiece([Br(lbl), Label(lbl)], q.code, [Label(lbl + 1)] + Closed(b.code, b.exits, lbl), b.exits,
               [Label(lbl + 2)], temp, q.temp, b.temp, lbl, b.lbl);
  }

  lemma {:induction false} ListShape(ss: seq<W.Stmt>, env: seq<Entry>, sigs: W.Sigs, ret: TypeRef, temp: nat, lbl: nat)
    ensures var g := GenList(ss, env, sigs, ret, temp, lbl);
            Piece(g.code, g.exits, temp, g.temp, lbl, g.lbl) && g.exits == W.ListExits(ss)
    decreases ss, 0
  {
    if ss != [] {
      var h := GenStmt(ss[0], env, sigs, ret, temp, lbl);
      StmtShape(ss[0], env, sigs, ret, temp, lbl);
      if !h.exits {
        var t := GenList(ss[1..], h.env, sigs, ret, h.temp, h.lbl);
        ListShape(ss[1..], h.env, sigs, ret, h.temp, h.lbl);
        PieceAppend(h.code, t.code, t.exits, temp, h.temp, t.temp, lbl, h.lbl, t.lbl);
      }
    }
  }

  lemma {:induction false} HeaderShape(ps: seq<Entry>, env: seq<Entry>, t: nat)
    ensures Straight(GenHeader(ps, env), t, t)
  {
    if ps != [] {
      var p := ps[|ps| - 1];
      var ssa := SsaOf(env, p.name);
      var i, j := Alloca(ssa, p.ty), StoreSlot(p.ty, Param(ssa), ssa);
      HeaderShape(ps[..|ps| - 1], env, t);
      StraightOne(i, t, t);
      StraightOne(j, t, t);
      StraightAppend([i], [j], t, t, t);
      assert [i] + [j] == [i, j];
      StraightAppend(GenHeader(ps[..|ps| - 1], env), [i, j], t, t, t);
    }
  }

  /** The code of a whole function. */
  lemma {:induction false} FnShape(fn: W.FnDef, sigs: W.Sigs, temp: nat, lbl: nat)
    ensures var g := GenFn(fn, sigs, temp, lbl); Piece(g.fn.code, true, temp, g.temp, lbl, g.lbl)
  {
    hide GenList, GenHeader, Scan, TempDefs, LabelDefs, LabelRefs, Piece;
    var g := GenFn(fn, sigs, temp, lbl);
    var h := GenHeader(fn.params, fn.params);
    var b := GenList(fn.body, fn.params, sigs, fn.ret, temp, lbl);
    HeaderShape(fn.params, fn.params, temp);
    ListShape(fn.body, fn.params, sigs, fn.ret, temp, lbl);
    PieceAppend(h, b.code, b.exits, temp, temp, b.temp, lbl, lbl, b.lbl);
    if b.exits {
      assert g.fn.code == h + b.code;
    } else {
      var e := GenEnd(b.last, fn.ret, b.temp);
      if b.last.Some? && !fn.ret.Void? {
        var c := Ensure(b.last.value, fn.ret, b.temp);
        EnsureShape(b.last.value, fn.ret, b.temp);
        ReturnPiece(c.code, Ret(fn.ret, c.v.op), b.temp, c.temp, b.lbl);
      } else {
        EmptyShape(b.temp);
        ReturnPiece([], e.code[0], b.temp, b.temp, b.lbl);
        assert e.code == [] + [e.code[0]];
      }
      PieceAppend(h + b.code, e.code, true, temp, b.temp, e.temp, lbl, b.lbl, b.lbl);
    }
  }

  // ---------- the same facts, position by position ----------

  /** A function body as the LLVM Language Reference wants it: it ends in a terminator,
      and a label follows every terminator before the end and nothing else. */
  ghost predicate BlockGraph(code: seq<Instr>) {
    code != [] && !code[0].Label? && IsTerminator(code[|code| - 1]) &&
    forall i :: 0 <= i < |code| - 1 ==> (IsTerminator(code[i]) <==> code[i + 1].Label?)
  }

  lemma {:induction false} ScanIsBlockGraph(code: seq<Instr>, open: bool)
    requires Scan(code, open) == Some(false) && code != []
    ensures code[0].Label? <==> !open
    ensures IsTerminator(code[|code| - 1])
    ensures forall i :: 0 <= i < |code| - 1 ==> (IsTerminator(code[i]) <==> code[i + 1].Label?)
  {
    var o := if code[0].Label? then true else !IsTerminator(code[0]);
    if |code| > 1 {
      ScanIsBlockGraph(code[1..], o);
      forall i | 0 <= i < |code| - 1 ensures IsTerminator(code[i]) <==> code[i + 1].Label? {
        if i > 0 {
          assert code[1..][i - 1] == code[i] && code[1..][i] == code[i + 1];
        }
      }
    }
  }

  lemma {:induction false} CountPositive(code: seq<Instr>, i: nat)
    requires i < |code|
    ensures code[i].Label? ==> LabelDefs(code, code[i].l) > 0
    ensures forall l: nat :: Refers(code[i], l) ==> LabelRefs(code, l) > 0
    ensures forall t: nat :: Defines(code[i], t) ==> TempDefs(code, t) > 0
  {
    if i > 0 {
      CountPositive(code[1..], i - 1);
    }
  }

  lemma {:induction false} CountTwice(code: seq<Instr>, i: nat, j: nat)
    requires i < j < |code|
    ensures code[i].Label? && code[j] == code[i] ==> LabelDefs(code, code[i].l) > 1
    ensures forall t: nat :: Defines(code[i], t) && Defines(code[j], t) ==> TempDefs(code, t) > 1
  {
    if i > 0 {
      CountTwice(code[1..], i - 1, j - 1);
    } else {
      CountPositive(code[1..], j - 1);
    }
  }

  lemma {:induction false} CountWitness(code: seq<Instr>, l: nat) returns (i: nat)
    requires LabelDefs(code, l) > 0
    ensures i < |code| && code[i] == Label(l)
  {
    if code[0] == Label(l) {
      i := 0;
    } else {
      var j := CountWitness(code[1..], l);
      i := j + 1;
    }
  }

  /** Every emitted function is a well-formed block graph; every branch target is defined
      exactly once in it; and no temp is defined twice. */
  lemma {:induction false} FunctionsAreBlockGraphs(fn: W.FnDef, sigs: W.Sigs, temp: nat, lbl: nat)
    ensures var code := GenFn(fn, sigs, temp, lbl).fn.code;
            BlockGraph(code) &&
            (forall i: nat, l: nat :: i < |code| && Refers(code[i], l) ==>
               exists k: nat :: k < |code| && code[k] == Label(l)) &&
            (forall i: nat, j: nat :: i < j < |code| && code[i].Label? ==> code[j] != code[i]) &&
            (forall i: nat, j: nat, t: nat :: i < j < |code| && Defines(code[i], t) ==> !Defines(code[j], t))
  {
    var code := GenFn(fn, sigs, temp, lbl).fn.code;
    FnShape(fn, sigs, temp, lbl);
    ScanIsBlockGraph(code, true);
    forall i: nat, l: nat | i < |code| && Refers(code[i], l)
      ensures exists k: nat :: k < |code| && code[k] == Label(l)
    {
      CountPositive(code, i);
      var k := CountWitness(code, l);
    }
    forall i: nat, j: nat | i < j < |code|
      ensures code[i].Label? ==> code[j] != code[i]
      ensures forall t: nat :: Defines(code[i], t) ==> !Defines(code[j], t)
    {
      CountTwice(code, i, j);
    }
  }

  /** All the code of a module, one function after another. */
  function AllCode(m: Module): seq<Instr> {
    if m == [] then [] else m[0].code + AllCode(m[1..])
  }

  /** The counters are never reset, so over the whole module every temp between the first
      and the last is defined exactly once, every label at most once, and no other. */
  lemma {:induction false} ModuleNumbersAreUnique(p: W.Program, sigs: W.Sigs, temp: nat, lbl: nat)
    ensures var g := GenModule(p, sigs, temp, lbl);
            temp <= g.temp && lbl <= g.lbl &&
            (forall t: nat :: TempDefs(AllCode(g.m), t) == if temp <= t < g.temp then 1 else 0) &&
            (forall l: nat :: LabelDefs(AllCode(g.m), l) <= if lbl <= l < g.lbl then 1 else 0)
  {
    if p != [] {
      var f := GenFn(p[0], sigs, temp, lbl);
      FnShape(p[0], sigs, temp, lbl);
      ModuleNumbersAreUnique(p[1..], sigs, f.temp, f.lbl);
      var r := GenModule(p[1..], sigs, f.temp, f.lbl);
      assert GenModule(p, sigs, temp, lbl).m[1..] == r.m;
      AppendAll(f.fn.code, AllCode(r.m));
    }
  }

  /** In code where labels are unique, a jump lands on the label's only definition. */
  lemma {:induction false} FindLabelAt(code: seq<Instr>, i: nat)
    requires i < |code| && code[i].Label? && LabelDefs(code, code[i].l) <= 1
    ensures FindLabel(code, code[i].l) == Some(i)
  {
    if i > 0 {
      if code[0] == code[i] {
        CountTwice(code, 0, i);
      }
      FindLabelAt(code[1..], i - 1);
    }
  }
}
