/** Definitions dominate uses: on every path through the blocks of an emitted function,
    whether it can be taken or not, a temp or an alloca is defined before it is used, provided
    the function passes the check of `Usability`.  `Escapes` shows that the check is needed. */
module Dominance {
  import opened Wrappers
  import opened Types
  import opened Env
  import opened Ir
  import opened Gen
  import opened Blocks
  import opened Scoping
  import opened Usability
  import Simulation
  import W = Weave

  // ---------- names and flow ----------

  datatype Name = T(t: nat) | S(s: string)

  function NamesIn(o: Operand): set<Name> {
    match o
    case Temp(t) => {T(t)}
    case Slot(s) => {S(s)}
    case _ => {}
  }

  function NamesInArgs(args: seq<Arg>): set<Name> {
    if args == [] then {} else NamesIn(args[0].v) + NamesInArgs(args[1..])
  }

  function Uses(i: Instr): set<Name> {
    match i
    case Load(_, _, _, p) => NamesIn(p)
    case Store(_, v, _, p) => NamesIn(v) + NamesIn(p)
    case Bin(_, _, a, b) => NamesIn(a) + NamesIn(b)
    case Icmp(_, _, _, a, b) => NamesIn(a) + NamesIn(b)
    case BoolOp(_, _, a, b) => NamesIn(a) + NamesIn(b)
    case Zext(_, a) => NamesIn(a)
    case PtrToInt(_, _, a) => NamesIn(a)
    case BitcastI8(_, _, a) => NamesIn(a)
    case Call(_, _, _, args) => NamesInArgs(args)
    case CondBr(c, _, _) => {T(c)}
    case Ret(_, v) => NamesIn(v)
    case _ => {}
  }

  function Defs(i: Instr): set<Name> {
    match i
    case Alloca(s, _) => {S(s)}
    case Load(t, _, _, _) => {T(t)}
    case Bin(t, _, _, _) => {T(t)}
    case Icmp(t, _, _, _, _) => {T(t)}
    case BoolOp(t, _, _, _) => {T(t)}
    case Zext(t, _) => {T(t)}
    case PtrToInt(t, _, _) => {T(t)}
    case NullToPtr(t) => {T(t)}
    case BitcastI8(t, _, _) => {T(t)}
    case Call(Some(t), _, _, _) => {T(t)}
    case _ => {}
  }

  /** The places control may go to from position `pc`. */
  function Successors(code: seq<Instr>, pc: nat): set<nat>
    requires pc < |code|
  {
    match code[pc]
    case Br(l) => Target(code, l)
    case CondBr(_, l1, l2) => Target(code, l1) + Target(code, l2)
    case Ret(_, _) => {}
    case RetVoid => {}
    case _ => {pc + 1}
  }

  function Target(code: seq<Instr>, l: nat): set<nat> {
    match FindLabel(code, l) case None => {} case Some(i) => {i}
  }

  /** A path from the entry of a function. */
  ghost predicate IsPath(code: seq<Instr>, path: seq<nat>) {
    path != [] && path[0] == 0 && (forall k :: 0 <= k < |path| ==> path[k] < |code|) &&
    forall k :: 0 <= k < |path| - 1 ==> path[k + 1] in Successors(code, path[k])
  }

  /** Whatever the last instruction of a path uses has been defined on the path. */
  ghost predicate Dominated(code: seq<Instr>) {
    forall path :: IsPath(code, path) ==> Uses(code[path[|path| - 1]]) <= DefinedOn(code, path)
  }

  /** What a path has defined before its last instruction. */
  function DefinedOn(code: seq<Instr>, path: seq<nat>): set<Name>
    requires forall k :: 0 <= k < |path| ==> path[k] < |code|
  {
    if |path| <= 1 then {} else DefinedOn(code, path[..|path| - 1]) + Defs(code[path[|path| - 2]])
  }

  // ---------- a linear check, given what holds at each label ----------

  /** Names known to be defined at each label. */
  type Known = map<nat, set<Name>>

  datatype Point = Live(d: set<Name>) | Dead

  predicate Allows(kn: Known, l: nat, d: set<Name>) {
    l in kn && kn[l] <= d
  }

  function FlowOne(i: Instr, p: Point, kn: Known): Option<Point> {
    if i.Label? then
      if i.l in kn && (p.Live? ==> kn[i.l] <= p.d) then Some(Live(kn[i.l])) else None
    else if p.Dead? || !(Uses(i) <= p.d) then None
    else match i
         case Br(l) => if Allows(kn, l, p.d) then Some(Dead) else None
         case CondBr(_, l1, l2) => if Allows(kn, l1, p.d) && Allows(kn, l2, p.d) then Some(Dead) else None
         case Ret(_, _) => Some(Dead)
         case RetVoid => Some(Dead)
         case _ => Some(Live(p.d + Defs(i)))
  }

  /** What is defined behind a piece of code; none if something is used undefined. */
  function Flow(code: seq<Instr>, p: Point, kn: Known): Option<Point> {
    if code == [] then Some(p)
    else match FlowOne(code[0], p, kn)
         case None => None
         case Some(q) => Flow(code[1..], q, kn)
  }

  lemma {:induction false} FlowAppend(a: seq<Instr>, b: seq<Instr>, p: Point, kn: Known)
    ensures Flow(a + b, p, kn) == match Flow(a, p, kn) case None => None case Some(q) => Flow(b, q, kn)
  {
    hide FlowOne;
    if a == [] {
      assert a + b == b;
    } else {
      assert (a + b)[1..] == a[1..] + b;
      if FlowOne(a[0], p, kn).Some? {
        FlowAppend(a[1..], b, FlowOne(a[0], p, kn).value, kn);
      }
    }
  }

  /** `k2` knows all that `k1` knows, and maybe more labels. */
  ghost predicate Agrees(k1: Known, k2: Known) {
    forall l :: l in k1 ==> l in k2 && k2[l] == k1[l]
  }

  lemma {:induction false} FlowAgrees(code: seq<Instr>, p: Point, k1: Known, k2: Known)
    requires Agrees(k1, k2) && Flow(code, p, k1).Some?
    ensures Flow(code, p, k2) == Flow(code, p, k1)
  {
    if code != [] {
      FlowAgrees(code[1..], FlowOne(code[0], p, k1).value, k1, k2);
    }
  }

  // ---------- the check is sound ----------

  /** The point before position `i`. */
  lemma {:induction false} FlowAt(code: seq<Instr>, p: Point, kn: Known, i: nat) returns (q: Point)
    requires i < |code| && Flow(code, p, kn).Some?
    ensures Flow(code[..i], p, kn) == Some(q) && FlowOne(code[i], q, kn).Some?
    ensures Flow(code[..i + 1], p, kn) == FlowOne(code[i], q, kn)
  {
    hide FlowOne;
    assert code == code[..i] + code[i..];
    FlowAppend(code[..i], code[i..], p, kn);
    q := Flow(code[..i], p, kn).value;
    assert code[..i + 1] == code[..i] + [code[i]] && [code[i]][1..] == [];
    FlowAppend(code[..i], [code[i]], p, kn);
  }

  /** On arrival at `i` the path has defined what the check relies on there. */
  ghost predicate Arrived(code: seq<Instr>, kn: Known, i: nat, d: set<Name>) {
    i < |code| &&
    if code[i].Label? then code[i].l in kn && kn[code[i].l] <= d
    else Flow(code[..i], Live({}), kn).Some? && Flow(code[..i], Live({}), kn).value.Live? &&
         Flow(code[..i], Live({}), kn).value.d <= d
  }

  lemma {:induction false} StepArrives(code: seq<Instr>, kn: Known, i: nat, d: set<Name>, j: nat)
    requires Flow(code, Live({}), kn).Some? && Arrived(code, kn, i, d) && j in Successors(code, i) && j < |code|
    ensures Uses(code[i]) <= d && Arrived(code, kn, j, d + Defs(code[i]))
  {
    hide Uses, Defs, Flow;
    var q := FlowAt(code, Live({}), kn, i);
    if j == i + 1 && !code[i].Br? && !code[i].CondBr? {
      var r := FlowAt(code, Live({}), kn, j);
      LabelUsesNothing(code[i]);
    } else {
      assert code[j].Label?;
      BranchDefinesNothing(code[i]);
    }
  }

  lemma {:induction false} LabelUsesNothing(i: Instr)
    ensures i.Label? ==> Uses(i) == {} && Defs(i) == {}
  {
  }

  lemma {:induction false} BranchDefinesNothing(i: Instr)
    ensures i.Br? || i.CondBr? ==> Defs(i) == {}
  {
  }

  lemma {:induction false} PathArrives(code: seq<Instr>, kn: Known, path: seq<nat>)
    requires Flow(code, Live({}), kn).Some? && IsPath(code, path)
    ensures Arrived(code, kn, path[|path| - 1], DefinedOn(code, path))
  {
    hide Flow, Uses, Defs, Successors;
    if |path| == 1 {
      var q := FlowAt(code, Live({}), kn, 0);
      EntryArrives(code, kn);
    } else {
      var init := path[..|path| - 1];
      PathArrives(code, kn, init);
      StepArrives(code, kn, path[|path| - 2], DefinedOn(code, init), path[|path| - 1]);
    }
  }

  lemma {:induction false} EntryArrives(code: seq<Instr>, kn: Known)
    requires code != [] && Flow(code, Live({}), kn).Some?
    ensures Arrived(code, kn, 0, {})
  {
    assert code[..0] == [];
  }

  /** Code that passes the check defines everything before it is used, on every path. */
  lemma {:induction false} FlowIsSound(code: seq<Instr>, kn: Known, path: seq<nat>)
    requires Flow(code, Live({}), kn).Some? && IsPath(code, path)
    ensures Uses(code[path[|path| - 1]]) <= DefinedOn(code, path)
  {
    hide Flow, Uses, DefinedOn;
    PathArrives(code, kn, path);
    var i := path[|path| - 1];
    var q := FlowAt(code, Live({}), kn, i);
    LabelUsesNothing(code[i]);
  }

  // ---------- the emitted code passes ----------

  /** The allocas of all variables in scope are there. */
  ghost predicate Hosted(sc: W.Scope, d: set<Name>) {
    forall k :: 0 <= k < |sc| && sc[k].live ==> S(SsaName(sc[k].e.name, k)) in d
  }

  /** Code without labels, run from `d`: it reaches `x`, which has all of `d`. */
  ghost predicate Runs(code: seq<Instr>, d: set<Name>, x: set<Name>, kn: Known) {
    Flow(code, Live(d), kn) == Some(Live(x)) && d <= x
  }

  lemma {:induction false} RunsAppend(a: seq<Instr>, b: seq<Instr>, d: set<Name>, x: set<Name>, y: set<Name>, kn: Known)
    requires Runs(a, d, x, kn) && Runs(b, x, y, kn)
    ensures Runs(a + b, d, y, kn)
  {
    hide Flow;
    FlowAppend(a, b, Live(d), kn);
  }

  lemma {:induction false} RunsOne(i: Instr, d: set<Name>, kn: Known)
    requires !i.Label? && !i.Br? && !i.CondBr? && !i.Ret? && !i.RetVoid? && Uses(i) <= d
    ensures Runs([i], d, d + Defs(i), kn)
  {
    assert [i][1..] == [];
  }

  lemma {:induction false} RunsStore(ty: TypeRef, v: Operand, p: Operand, pty: TypeRef, d: set<Name>, kn: Known)
    requires NamesIn(v) <= d && NamesIn(p) <= d
    ensures Runs([Store(ty, v, pty, p)], d, d, kn)
  {
    RunsOne(Store(ty, v, pty, p), d, kn);
    assert d + {} == d;
  }

  lemma {:induction false} RunsNone(d: set<Name>, kn: Known)
    ensures Runs([], d, d, kn)
  {
  }

  /** A variable in scope is in its alloca. */
  lemma {:induction false} Resolved(x: string, sc: W.Scope, d: set<Name>)
    requires W.Resolves(x, sc) && Hosted(sc, d)
    ensures S(SsaOf(W.Plain(sc), x)) in d
  {
    FindIsLast(W.Plain(sc), x);
  }

  lemma {:induction false} EnsureRuns(v: GVal, ty: TypeRef, temp: nat, d: set<Name>, kn: Known) returns (x: set<Name>)
    requires NamesIn(v.op) <= d
    ensures var g := Ensure(v, ty, temp); Runs(g.code, d, x, kn) && NamesIn(g.v.op) <= x
  {
    var g := Ensure(v, ty, temp);
    x := d;
    RunsNone(d, kn);
    if g.code != [] {
      RunsOne(g.code[0], d, kn);
      assert g.code == [g.code[0]];
      x := d + Defs(g.code[0]);
    }
  }

  /** Code of an expression runs through; its value is at hand if what it mentions is live. */
  lemma {:induction false} ExprRuns(e: W.Expr, sc: W.Scope, sigs: W.Sigs, temp: nat, d: set<Name>, kn: Known)
    returns (x: set<Name>)
    requires (UsesOk(e, sc) || e.AddrOf?) && Hosted(sc, d)
    ensures var g := GenExpr(e, W.Plain(sc), sigs, temp);
            Runs(g.code, d, x, kn) && (UsesOk(e, sc) ==> NamesIn(g.v.op) <= x)
    decreases e, 2
  {
    hide Runs, Flow, Find, SsaName, SsaOf, W.Plain, Hosted, W.Resolves;
    var env := W.Plain(sc);
    RunsNone(d, kn);
    x := d;
    match e
    case Const(_) =>
    case Var(y) =>
      if TypeOf(env, y).Some? {
        Resolved(y, sc, d);
        var i := Load(temp, TypeOf(env, y).value, Ptr(TypeOf(env, y).value), Slot(SsaOf(env, y)));
        RunsOne(i, d, kn);
        x := d + {T(temp)};
      }
    case AddrOf(y) =>
      if TypeOf(env, y).Some? && UsesOk(e, sc) {
        Resolved(y, sc, d);
      }
    case Deref(_, p) =>
      var x1 := ExprRuns(p, sc, sigs, temp, d, kn);
      x := LoadRuns(e, W.Plain(sc), sigs, temp, d, x1, kn);
    case Binary(_, _, _) => x := BinaryRuns(e, sc, sigs, temp, d, kn);
    case CallFn(f, args) =>
      var x1 := ArgsRun(args, f, 0, sc, sigs, temp, d, kn);
      x := CallRuns(e, W.Plain(sc), sigs, temp, d, x1, kn);
  }

  lemma {:induction false} LoadRuns(e: W.Expr, env: seq<Entry>, sigs: W.Sigs, temp: nat, d: set<Name>, x1: set<Name>,
          kn: Known)
    returns (x: set<Name>)
    requires e.Deref?
    requires var g := GenExpr(e.p, env, sigs, temp); Runs(g.code, d, x1, kn) && NamesIn(g.v.op) <= x1
    ensures var g := GenExpr(e, env, sigs, temp); Runs(g.code, d, x, kn) && NamesIn(g.v.op) <= x
  {
    hide Runs;
    var g := GenExpr(e.p, env, sigs, temp);
    var i := Load(g.temp, e.ty, g.v.ty, g.v.op);
    RunsOne(i, x1, kn);
    x := x1 + {T(g.temp)};
    RunsAppend(g.code, [i], d, x1, x, kn);
  }

  lemma {:induction false} CallRuns(e: W.Expr, env: seq<Entry>, sigs: W.Sigs, temp: nat, d: set<Name>, x1: set<Name>,
          kn: Known)
    returns (x: set<Name>)
    requires e.CallFn?
    requires var a := GenArgs(e.args, e.f, 0, env, sigs, temp); Runs(a.code, d, x1, kn) && NamesInArgs(a.args) <= x1
    ensures var g := GenExpr(e, env, sigs, temp); Runs(g.code, d, x, kn) && NamesIn(g.v.op) <= x
  {
    hide Runs, GenArgs, GenExpr;
    var a := GenArgs(e.args, e.f, 0, env, sigs, temp);
    Simulation.CallCode(e, env, sigs, temp);
    var i := Simulation.CallInstr(e, a, sigs);
    RunsOne(i, x1, kn);
    x := x1 + Defs(i);
    RunsAppend(a.code, [i], d, x1, x, kn);
  }

  lemma {:induction false} EnsuredRuns(e: W.Expr, ty: TypeRef, sc: W.Scope, sigs: W.Sigs, temp: nat, d: set<Name>,
          kn: Known)
    returns (x: set<Name>)
    requires UsesOk(e, sc) && Hosted(sc, d)
    ensures var g := Ensured(GenExpr(e, W.Plain(sc), sigs, temp), ty); Runs(g.code, d, x, kn) && NamesIn(g.v.op) <= x
    decreases e, 3
  {
    hide Runs, Flow, W.Plain, Hosted, GenExpr, UsesOk;
    var g := GenExpr(e, W.Plain(sc), sigs, temp);
    var x1 := ExprRuns(e, sc, sigs, temp, d, kn);
    x := EnsureRuns(g.v, ty, g.temp, x1, kn);
    RunsAppend(g.code, Ensure(g.v, ty, g.temp).code, d, x1, x, kn);
  }

  lemma {:induction false} HostedMore(sc: W.Scope, d: set<Name>, x: set<Name>)
    requires Hosted(sc, d) && d <= x
    ensures Hosted(sc, x)
  {
  }

  lemma {:induction false} OperandRuns(op: W.Operator, e: W.Expr, sc: W.Scope, sigs: W.Sigs, temp: nat, d: set<Name>,
          kn: Known)
    returns (x: set<Name>)
    requires UsesOk(e, sc) && Hosted(sc, d)
    ensures var g := OperandCode(op, GenExpr(e, W.Plain(sc), sigs, temp));
            Runs(g.code, d, x, kn) && NamesIn(g.v.op) <= x && d <= x && Hosted(sc, x)
    decreases e, 4
  {
    hide Runs, Flow, W.Plain, Hosted, GenExpr, UsesOk, Ensured;
    if op.Cmp? {
      x := ExprRuns(e, sc, sigs, temp, d, kn);
    } else {
      x := EnsuredRuns(e, I32, sc, sigs, temp, d, kn);
    }
    RunsGrows(OperandCode(op, GenExpr(e, W.Plain(sc), sigs, temp)).code, d, x, kn);
    HostedMore(sc, d, x);
  }

  lemma {:induction false} BinaryRuns(e: W.Expr, sc: W.Scope, sigs: W.Sigs, temp: nat, d: set<Name>, kn: Known)
    returns (x: set<Name>)
    requires e.Binary? && UsesOk(e, sc) && Hosted(sc, d)
    ensures var g := GenExpr(e, W.Plain(sc), sigs, temp); Runs(g.code, d, x, kn) && NamesIn(g.v.op) <= x
    decreases e, 1
  {
    hide Runs, Flow, W.Plain, Hosted, GenTail, Ensured, W.Resolves, Find;
    var l := OperandCode(e.op, GenExpr(e.lhs, W.Plain(sc), sigs, temp));
    var r := OperandCode(e.op, GenExpr(e.rhs, W.Plain(sc), sigs, l.temp));
    var t := GenTail(e.op, l.v, r.v, r.temp);
    var x1 := OperandRuns(e.op, e.lhs, sc, sigs, temp, d, kn);
    var x2 := OperandRuns(e.op, e.rhs, sc, sigs, l.temp, x1, kn);
    x := TailRuns(e.op, l.v, r.v, r.temp, x2, kn);
    RunsAppend(l.code, r.code, d, x1, x2, kn);
    RunsAppend(l.code + r.code, t.code, d, x2, x, kn);
  }

  lemma {:induction false} RunsGrows(code: seq<Instr>, d: set<Name>, x: set<Name>, kn: Known)
    requires Runs(code, d, x, kn)
    ensures d <= x
  {
  }

  lemma {:induction false} RunsTwo(i: Instr, j: Instr, d: set<Name>, kn: Known)
    requires !i.Label? && !i.Br? && !i.CondBr? && !i.Ret? && !i.RetVoid? && Uses(i) <= d
    requires !j.Label? && !j.Br? && !j.CondBr? && !j.Ret? && !j.RetVoid? && Uses(j) <= d + Defs(i)
    ensures Runs([i, j], d, d + Defs(i) + Defs(j), kn)
  {
    hide Uses, Defs, Runs;
    RunsOne(i, d, kn);
    RunsOne(j, d + Defs(i), kn);
    RunsAppend([i], [j], d, d + Defs(i), d + Defs(i) + Defs(j), kn);
    assert [i] + [j] == [i, j];
  }

  lemma {:induction false} TailRuns(op: W.Operator, l: GVal, r: GVal, t: nat, d: set<Name>, kn: Known)
    returns (x: set<Name>)
    requires NamesIn(l.op) <= d && NamesIn(r.op) <= d
    ensures var g := GenTail(op, l, r, t); Runs(g.code, d, x, kn) && NamesIn(g.v.op) <= x
  {
    hide Runs;
    var g := GenTail(op, l, r, t);
    match op
    case Arith(o) =>
      RunsOne(g.code[0], d, kn);
      x := d + {T(t)};
    case Cmp(o) => x := CmpRuns(o, l, r, t, d, kn);
    case Logic(o) =>
      var i, j := Icmp(t, Ne, I32, l.op, Const(0)), Icmp(t + 1, Ne, I32, r.op, Const(0));
      var m, n := BoolOp(t + 2, BoolOpOf(o), Temp(t), Temp(t + 1)), Zext(t + 3, Temp(t + 2));
      RunsTwo(i, j, d, kn);
      var y := d + {T(t)} + {T(t + 1)};
      RunsTwo(m, n, y, kn);
      x := y + {T(t + 2)} + {T(t + 3)};
      RunsAppend([i, j], [m, n], d, y, x, kn);
      assert [i, j] + [m, n] == g.code;
  }

  lemma {:induction false} CmpRuns(o: W.CmpOp, l: GVal, r: GVal, t: nat, d: set<Name>, kn: Known) returns (x: set<Name>)
    requires NamesIn(l.op) <= d && NamesIn(r.op) <= d
    ensures var g := GenCmp(o, l, r, t); Runs(g.code, d, x, kn) && NamesIn(g.v.op) <= x
  {
    hide Runs, Ensure, W.OperandType;
    var ty := W.OperandType(W.Cmp(o), l.ty, r.ty);
    var a := Ensure(l, ty, t + 2);
    var b := Ensure(r, ty, a.temp);
    var x1 := EnsureRuns(l, ty, t + 2, d, kn);
    RunsGrows(a.code, d, x1, kn);
    var x2 := EnsureRuns(r, ty, a.temp, x1, kn);
    RunsGrows(b.code, x1, x2, kn);
    RunsAppend(a.code, b.code, d, x1, x2, kn);
    var i, j := Icmp(t, PredOf(o), ty, a.v.op, b.v.op), Zext(t + 1, Temp(t));
    RunsTwo(i, j, x2, kn);
    x := x2 + {T(t)} + {T(t + 1)};
    RunsAppend(a.code + b.code, [i, j], d, x2, x, kn);
  }

  lemma {:induction false} ArgsRun(es: seq<W.Expr>, f: string, i: nat, sc: W.Scope, sigs: W.Sigs, temp: nat,
          d: set<Name>, kn: Known)
    returns (x: set<Name>)
    requires (forall y :: y in VarsIn(es) && Find(W.Plain(sc), y) >= 0 ==> W.Resolves(y, sc)) && Hosted(sc, d)
    ensures var g := GenArgs(es, f, i, W.Plain(sc), sigs, temp); Runs(g.code, d, x, kn) && NamesInArgs(g.args) <= x
    decreases es, 0
  {
    hide Runs, Flow, W.Plain, Hosted, Ensured, GenExpr, W.Resolves, Find;
    RunsNone(d, kn);
    x := d;
    if es != [] {
      var h := Ensured(GenExpr(es[0], W.Plain(sc), sigs, temp), ParamType(sigs, f, i));
      var t := GenArgs(es[1..], f, i + 1, W.Plain(sc), sigs, h.temp);
      var x1 := EnsuredRuns(es[0], ParamType(sigs, f, i), sc, sigs, temp, d, kn);
      RunsGrows(h.code, d, x1, kn);
      HostedMore(sc, d, x1);
      x := ArgsRun(es[1..], f, i + 1, sc, sigs, h.temp, x1, kn);
      RunsGrows(t.code, x1, x, kn);
      RunsAppend(h.code, t.code, d, x1, x, kn);
      var g := GenArgs(es, f, i, W.Plain(sc), sigs, temp);
      assert g.args[1..] == t.args;
    }
  }

  // ---------- statements ----------

  /** Code entered with `d` defined: it flows to `x`, or leaves the function.  What its own
      labels rely on is in `kn`. */
  ghost predicate Flows(g: GenS, lbl: nat, d: set<Name>, x: set<Name>, kn: Known, u: Usage) {
    (forall l :: l in kn ==> lbl <= l < g.lbl) &&
    Flow(g.code, Live(d), kn) == Some(if g.exits then Dead else Live(x)) &&
    (!g.exits ==> d <= x && Hosted(u.sc, x) && LastUsable(g.last, u.value, x))
  }

  /** The value for an implicit return is at hand unless the check says otherwise. */
  ghost predicate LastUsable(last: Option<GVal>, value: Option<bool>, x: set<Name>) {
    (last.Some? <==> value.Some?) && (value == Some(true) ==> NamesIn(last.value.op) <= x)
  }

  lemma {:induction false} FlowsStraight(g: GenS, lbl: nat, d: set<Name>, x: set<Name>, u: Usage)
    requires Runs(g.code, d, x, map[]) && !g.exits && g.lbl == lbl && Hosted(u.sc, d)
    requires LastUsable(g.last, u.value, x)
    ensures Flows(g, lbl, d, x, map[], u)
  {
    HostedMore(u.sc, d, x);
  }

  lemma {:induction false} StmtFlows(s: W.Stmt, sc: W.Scope, sigs: W.Sigs, ret: TypeRef, temp: nat, lbl: nat,
          d: set<Name>)
    returns (x: set<Name>, kn: Known)
    requires UsageOf(s, sc, ret).Some? && Hosted(sc, d)
    ensures Flows(GenStmt(s, W.Plain(sc), sigs, ret, temp, lbl), lbl, d, x, kn, UsageOf(s, sc, ret).value)
    decreases s, 2
  {
    hide Runs, W.Plain, Hosted, GenExpr, UsesOk, HasSlot, Ensured, Flow, Flows, SsaOf, TypeOf;
    var env := W.Plain(sc);
    var g := GenStmt(s, env, sigs, ret, temp, lbl);
    var u := UsageOf(s, sc, ret).value;
    x, kn := d, map[];
    match s
    case Nop =>
      RunsNone(d, kn);
      FlowsStraight(g, lbl, d, x, u);
    case Eval(e) =>
      x := ExprRuns(e, sc, sigs, temp, d, kn);
      FlowsStraight(g, lbl, d, x, u);
    case Return(e) =>
      var v := GenExpr(e, env, sigs, temp);
      x := ExprRuns(e, sc, sigs, temp, d, kn);
      LeavesAfter(v.code, if ret.Void? then RetVoid else Ret(ret, v.v.op), d, x);
      FlowsLeaves(g, lbl, d, x, u);
    case StoreTo(ty, p, e) =>
      var q := GenExpr(p, env, sigs, temp);
      var v := Ensured(GenExpr(e, env, sigs, q.temp), ty);
      var x1 := ExprRuns(p, sc, sigs, temp, d, kn);
      RunsGrows(q.code, d, x1, kn);
      HostedMore(sc, d, x1);
      x := EnsuredRuns(e, ty, sc, sigs, q.temp, x1, kn);
      RunsGrows(v.code, x1, x, kn);
      RunsAppend(q.code, v.code, d, x1, x, kn);
      RunsStore(ty, v.v.op, q.v.op, q.v.ty, x, kn);
      RunsAppend(q.code + v.code, [Store(ty, v.v.op, q.v.ty, q.v.op)], d, x, x, kn);
      FlowsStraight(g, lbl, d, x, u);
    case Set(y, e) =>
      var v := GenExpr(e, env, sigs, temp);
      x := ExprRuns(e, sc, sigs, temp, d, kn);
      RunsGrows(v.code, d, x, kn);
      SlotIsHosted(SsaOf(env, y), sc, d);
      var i := StoreSlot(if TypeOf(env, y).None? then I32 else TypeOf(env, y).value, v.v.op, SsaOf(env, y));
      RunsStore(i.ty, i.v, i.p, i.pty, x, kn);
      RunsAppend(v.code, [i], d, x, x, kn);
      FlowsStraight(g, lbl, d, x, u);
    case Let(_, _, _, _) => x, kn := LetFlows(s, sc, sigs, ret, temp, lbl, d);
    case Do(ss) => x, kn := ListFlows(ss, sc, sigs, ret, temp, lbl, d);
    case If(_, _, _) => x, kn := IfFlows(s, sc, sigs, ret, temp, lbl, d);
    case While(_, _) => x, kn := WhileFlows(s, sc, sigs, ret, temp, lbl, d);
  }

  lemma {:induction false} SlotIsHosted(ssa: string, sc: W.Scope, d: set<Name>)
    requires HasSlot(ssa, sc) && Hosted(sc, d)
    ensures S(ssa) in d
  {
  }

  lemma {:induction false} LeavesAfter(code: seq<Instr>, i: Instr, d: set<Name>, x: set<Name>)
    requires Runs(code, d, x, map[]) && (i.RetVoid? || (i.Ret? && NamesIn(i.rv) <= x))
    ensures Flow(code + [i], Live(d), map[]) == Some(Dead)
  {
    FlowAppend(code, [i], Live(d), map[]);
    assert [i][1..] == [];
  }

  lemma {:induction false} FlowsLeaves(g: GenS, lbl: nat, d: set<Name>, x: set<Name>, u: Usage)
    requires Flow(g.code, Live(d), map[]) == Some(Dead) && g.exits
    ensures Flows(g, lbl, d, x, map[], u)
  {
  }

  /** A start without labels before a piece. */
  lemma {:induction false} FlowsAfter(a: seq<Instr>, g: GenS, lbl: nat, d: set<Name>, y: set<Name>, x: set<Name>,
          kn: Known, u: Usage)
    requires Runs(a, d, y, kn) && Flows(g, lbl, y, x, kn, u)
    ensures Flows(g.(code := a + g.code), lbl, d, x, kn, u)
  {
    hide Flow, Hosted, LastUsable;
    FlowAppend(a, g.code, Live(d), kn);
  }

  lemma {:induction false} LetFlows(s: W.Stmt, sc: W.Scope, sigs: W.Sigs, ret: TypeRef, temp: nat, lbl: nat,
          d: set<Name>)
    returns (x: set<Name>, kn: Known)
    requires s.Let? && UsageOf(s, sc, ret).Some? && Hosted(sc, d)
    ensures Flows(GenStmt(s, W.Plain(sc), sigs, ret, temp, lbl), lbl, d, x, kn, UsageOf(s, sc, ret).value)
    decreases s, 1
  {
    hide Runs, W.Plain, Hosted, GenExpr, UsesOk, Flow, Flows, GenList, UsageOfList, SsaName;
    var env := W.Plain(sc);
    var e := Entry(s.x, s.ty);
    var sc' := sc + [W.Seen(e, true)];
    PlainPush(sc, e);
    LetSlot(sc, e);
    var ssa := SsaName(s.x, |sc|);
    var v := GenExpr(s.e, env, sigs, temp);
    var i := GenInit(v, s.ty);
    var r := GenList(s.rest, env + [e], sigs, ret, i.temp, lbl);
    var none: Known := map[];
    var x1 := ExprRuns(s.e, sc, sigs, temp, d, none);
    RunsOne(Alloca(ssa, s.ty), x1, none);
    var y := x1 + {S(ssa)};
    RunsAppend(v.code, [Alloca(ssa, s.ty)], d, x1, y, none);
    var z := InitRuns(v, s.ty, y, none);
    RunsAppend(v.code + [Alloca(ssa, s.ty)], i.code, d, y, z, none);
    var st := StoreSlot(s.ty, i.v.op, ssa);
    RunsGrows(v.code, d, x1, none);
    RunsGrows(i.code, y, z, none);
    RunsStore(s.ty, i.v.op, Slot(ssa), Ptr(s.ty), z, none);
    var head := v.code + [Alloca(ssa, s.ty)] + i.code;
    RunsAppend(head, [st], d, z, z, none);
    HostedMore(sc, d, z);
    HostedPush(sc, e, z);
    x, kn := ListFlows(s.rest, sc', sigs, ret, i.temp, lbl, z);
    RunsAgrees(head + [st], d, z, none, kn);
    FlowsAfter(head + [st], r, lbl, d, z, x, kn, UsageOf(s, sc, ret).value);
    FlowsSame(r.(code := head + [st] + r.code), GenStmt(s, env, sigs, ret, temp, lbl), lbl, d, x, kn,
              UsageOf(s, sc, ret).value);
  }

  lemma {:induction false} FlowsSame(a: GenS, b: GenS, lbl: nat, d: set<Name>, x: set<Name>, kn: Known, u: Usage)
    requires Flows(a, lbl, d, x, kn, u) && a.code == b.code && a.exits == b.exits && a.lbl == b.lbl && a.last == b.last
    ensures Flows(b, lbl, d, x, kn, u)
  {
  }

  lemma {:induction false} InitRuns(v: GenE, ty: TypeRef, d: set<Name>, kn: Known) returns (x: set<Name>)
    requires NamesIn(v.v.op) <= d
    ensures var i := GenInit(v, ty); Runs(i.code, d, x, kn) && NamesIn(i.v.op) <= x
  {
    hide Runs;
    var i := GenInit(v, ty);
    RunsNone(d, kn);
    x := d;
    if i.code != [] {
      RunsOne(i.code[0], d, kn);
      x := d + {T(v.temp)};
    }
  }

  lemma {:induction false} HostedPush(sc: W.Scope, e: Entry, d: set<Name>)
    requires Hosted(sc, d) && S(SsaName(e.name, |sc|)) in d
    ensures Hosted(sc + [W.Seen(e, true)], d)
  {
  }

  lemma {:induction false} RunsAgrees(code: seq<Instr>, d: set<Name>, x: set<Name>, k1: Known, k2: Known)
    requires Runs(code, d, x, k1) && Agrees(k1, k2)
    ensures Runs(code, d, x, k2)
  {
    FlowAgrees(code, Live(d), k1, k2);
  }

  lemma {:induction false} ListFlows(ss: seq<W.Stmt>, sc: W.Scope, sigs: W.Sigs, ret: TypeRef, temp: nat, lbl: nat,
          d: set<Name>)
    returns (x: set<Name>, kn: Known)
    requires UsageOfList(ss, sc, ret).Some? && Hosted(sc, d)
    ensures Flows(GenList(ss, W.Plain(sc), sigs, ret, temp, lbl), lbl, d, x, kn, UsageOfList(ss, sc, ret).value)
    decreases ss, 0
  {
    hide Runs, W.Plain, Hosted, Flow, Flows, GenStmt, UsageOf;
    var g := GenList(ss, W.Plain(sc), sigs, ret, temp, lbl);
    x, kn := d, map[];
    if ss == [] {
      RunsNone(d, kn);
      FlowsStraight(g, lbl, d, x, Usage(sc, None));
    } else {
      var h := GenStmt(ss[0], W.Plain(sc), sigs, ret, temp, lbl);
      var u := UsageOf(ss[0], sc, ret).value;
      var x1, k1 := StmtFlows(ss[0], sc, sigs, ret, temp, lbl, d);
      UsageTracksGen(ss[0], sc, sigs, ret, temp, lbl);
      StmtShape(ss[0], W.Plain(sc), sigs, ret, temp, lbl);
      if h.exits {
        x, kn := x1, k1;
        FlowsExit(h, g, lbl, d, x, kn, u);
      } else {
        var t := GenList(ss[1..], h.env, sigs, ret, h.temp, h.lbl);
        FlowsHosts(h, lbl, d, x1, k1, u);
        var x2, k2 := ListFlows(ss[1..], u.sc, sigs, ret, h.temp, h.lbl, x1);
        ListShape(ss[1..], h.env, sigs, ret, h.temp, h.lbl);
        x, kn := x2, k1 + k2;
        FlowsSeq(h, t, g, lbl, d, x1, x2, k1, k2, u, UsageOfList(ss[1..], u.sc, ret).value);
      }
    }
  }

  lemma {:induction false} FlowsExit(h: GenS, g: GenS, lbl: nat, d: set<Name>, x: set<Name>, kn: Known, u: Usage)
    requires Flows(h, lbl, d, x, kn, u) && h.exits && g == h.(last := None)
    ensures Flows(g, lbl, d, x, kn, u.(value := None))
  {
  }

  lemma {:induction false} FlowsHosts(h: GenS, lbl: nat, d: set<Name>, x: set<Name>, kn: Known, u: Usage)
    requires Flows(h, lbl, d, x, kn, u) && !h.exits
    ensures Hosted(u.sc, x) && d <= x
  {
  }

  lemma {:induction false} FlowsSeq(h: GenS, t: GenS, g: GenS, lbl: nat, d: set<Name>, x1: set<Name>, x2: set<Name>,
          k1: Known, k2: Known, u1: Usage, u2: Usage)
    requires !h.exits && Flows(h, lbl, d, x1, k1, u1) && Flows(t, h.lbl, x1, x2, k2, u2) && lbl <= h.lbl <= t.lbl
    requires g.code == h.code + t.code && g.exits == t.exits && g.lbl == t.lbl
    requires g.last == if t.exits then None else if t.last.Some? then t.last else h.last
    ensures Flows(g, lbl, d, x2, k1 + k2, Usage(u2.sc, if u2.value.Some? then u2.value else u1.value))
  {
    hide Flow, Hosted;
    FlowAgrees(h.code, Live(d), k1, k1 + k2);
    FlowAgrees(t.code, Live(x1), k2, k1 + k2);
    FlowAppend(h.code, t.code, Live(d), k1 + k2);
  }

  // ---------- branches and loops ----------

  /** The test that ends a block leads to two labels that rely on what was known before it. */
  lemma {:induction false} TestFlows(c: W.Expr, sc: W.Scope, sigs: W.Sigs, temp: nat, l1: nat, l2: nat, d: set<Name>,
          y: set<Name>, kn: Known)
    requires var g := Ensured(GenExpr(c, W.Plain(sc), sigs, temp), I32);
             Runs(g.code, d, y, map[]) && NamesIn(g.v.op) <= y
    requires Allows(kn, l1, y) && Allows(kn, l2, y)
    ensures Flow(GenTest(c, W.Plain(sc), sigs, temp, l1, l2).code, Live(d), kn) == Some(Dead)
  {
    hide GenExpr, Ensured, W.Plain;
    var g := Ensured(GenExpr(c, W.Plain(sc), sigs, temp), I32);
    RunsAgrees(g.code, d, y, map[], kn);
    FlowAppend(g.code, [Icmp(g.temp, Ne, I32, g.v.op, Const(0)), CondBr(g.temp, l1, l2)], Live(d), kn);
    TwoFlow(Icmp(g.temp, Ne, I32, g.v.op, Const(0)), CondBr(g.temp, l1, l2), y, kn);
  }

  lemma {:induction false} TwoFlow(i: Instr, j: Instr, y: set<Name>, kn: Known)
    requires i.Icmp? && j.CondBr? && i.t == j.c && Uses(i) <= y && Allows(kn, j.l1, y) && Allows(kn, j.l2, y)
    ensures Flow([i, j], Live(y), kn) == Some(Dead)
  {
    assert [i] + [j] == [i, j] && [i][1..] == [] && [j][1..] == [];
    FlowAppend([i], [j], Live(y), kn);
    assert Flow([i], Live(y), kn) == Some(Live(y + {T(i.t)}));
  }

  /** A labelled branch, whose end jumps on unless it leaves. */
  lemma {:induction false} BranchFlows(g: GenS, l: nat, target: nat, lbl: nat, y: set<Name>, x: set<Name>, k1: Known,
          u: Usage, kn: Known)
    requires Flows(g, lbl, y, x, k1, u) && Agrees(k1, kn) && l in kn && kn[l] == y
    requires !g.exits ==> Allows(kn, target, x)
    ensures Flow([Label(l)] + Closed(g.code, g.exits, target), Dead, kn) == Some(Dead)
  {
    FlowAgrees(g.code, Live(y), k1, kn);
    var code := Closed(g.code, g.exits, target);
    assert ([Label(l)] + code)[1..] == code;
    if !g.exits {
      FlowAppend(g.code, [Br(target)], Live(y), kn);
      assert [Br(target)][1..] == [];
    }
  }

  lemma {:induction false} LandingFlows(l: nat, kn: Known)
    requires l in kn
    ensures Flow([Label(l)], Dead, kn) == Some(Live(kn[l]))
  {
    assert [Label(l)][1..] == [];
  }

  /** Behind a scope that has been closed, the variables of the enclosing one are still there. */
  lemma {:induction false} HostedClose(sc: W.Scope, full: W.Scope, d: set<Name>)
    requires Hosted(sc, d) && Extends(sc, full)
    ensures Hosted(W.Close(full, |sc|), d)
  {
    CloseKeeps(sc, full);
    var after := W.Close(full, |sc|);
    forall k | 0 <= k < |after| && after[k].live ensures S(SsaName(after[k].e.name, k)) in d {
      assert after[..|sc|][k] == sc[k];
    }
  }

  /** What is known where an `if-stmt` ends: all that the one branch that gets there has. */
  function Landing(y: set<Name>, x1: set<Name>, x2: set<Name>, tx: bool, fx: bool): set<Name> {
    if tx then x2 else if fx then x1 else y
  }

  lemma {:induction false} HostedLanding(sc: W.Scope, t: W.Scope, f: W.Scope, y: set<Name>, x1: set<Name>,
          x2: set<Name>, tx: bool, fx: bool)
    requires Hosted(sc, y) && Extends(sc, t) && Extends(W.Close(t, |sc|), f)
    requires (!tx ==> Hosted(t, x1)) && (!fx ==> Hosted(f, x2)) && !(tx && fx)
    ensures Hosted(After(t, f, |sc|, tx, fx), Landing(y, x1, x2, tx, fx))
  {
    if tx {
    } else if fx {
      HostedShut(t, t + f[|t|..], x1);
    } else {
      CloseKeeps(sc, t);
      ExtendsTrans(sc, W.Close(t, |sc|), f);
      HostedClose(sc, f, y);
    }
  }

  lemma {:induction false} HostedShut(t: W.Scope, full: W.Scope, d: set<Name>)
    requires Hosted(t, d) && |t| <= |full| && full[..|t|] == t
    ensures Hosted(W.Close(full, |t|), d)
  {
    HostedClose(t, full, d);
  }

  lemma {:induction false} Flow4(a: seq<Instr>, b: seq<Instr>, c: seq<Instr>, e: seq<Instr>, p: Point, kn: Known)
    requires Flow(a, p, kn) == Some(Dead) && Flow(b, Dead, kn) == Some(Dead) && Flow(c, Dead, kn) == Some(Dead)
    ensures Flow(a + b + c + e, p, kn) == Flow(e, Dead, kn)
  {
    FlowAppend(a + b + c, e, p, kn);
    FlowAppend(a + b, c, p, kn);
    FlowAppend(a, b, p, kn);
  }

  lemma {:induction false} IfFlows(s: W.Stmt, sc: W.Scope, sigs: W.Sigs, ret: TypeRef, temp: nat, lbl: nat,
          d: set<Name>)
    returns (x: set<Name>, kn: Known)
    requires s.If? && UsageOf(s, sc, ret).Some? && Hosted(sc, d)
    ensures Flows(GenStmt(s, W.Plain(sc), sigs, ret, temp, lbl), lbl, d, x, kn, UsageOf(s, sc, ret).value)
    decreases s, 1
  {
    hide Runs, W.Plain, Hosted, Flow, Flows, GenExpr, Ensured, Closed, UsesOk, GenStmt, Extends, W.Close, After;
    var env := W.Plain(sc);
    var q := GenTest(s.cond, env, sigs, temp, lbl, lbl + 1);
    var y := EnsuredRuns(s.cond, I32, sc, sigs, temp, d, map[]);
    RunsGrows(Ensured(GenExpr(s.cond, env, sigs, temp), I32).code, d, y, map[]);
    HostedMore(sc, d, y);
    var t := GenStmt(s.thn, env, sigs, ret, q.temp, lbl + 3);
    var f := GenStmt(s.els, t.env, sigs, ret, t.temp, t.lbl);
    var u1 := UsageOf(s.thn, sc, ret).value;
    var sc1 := W.Close(u1.sc, |sc|);
    var u2 := UsageOf(s.els, sc1, ret).value;
    UsageTracksGen(s.thn, sc, sigs, ret, q.temp, lbl + 3);
    PlainClose(u1.sc, |sc|);
    UsageExtends(s.thn, sc, ret);
    HostedClose(sc, u1.sc, y);
    UsageExtends(s.els, sc1, ret);
    StmtShape(s.thn, env, sigs, ret, q.temp, lbl + 3);
    StmtShape(s.els, t.env, sigs, ret, t.temp, t.lbl);
    var x1, k1 := StmtFlows(s.thn, sc, sigs, ret, q.temp, lbl + 3, y);
    var x2, k2 := StmtFlows(s.els, sc1, sigs, ret, t.temp, t.lbl, y);
    x, kn := IfJoins(s, sc, sigs, ret, temp, lbl, d, y, x1, x2, k1, k2);
  }

  lemma {:induction false} FlowsEnd(g: GenS, lbl: nat, d: set<Name>, x: set<Name>, kn: Known, u: Usage)
    requires Flows(g, lbl, d, x, kn, u)
    ensures !g.exits ==> d <= x && Hosted(u.sc, x)
    ensures forall l :: l in kn ==> lbl <= l < g.lbl
  {
  }

  /** The parts of an `if-stmt` put together. */
  lemma {:induction false} IfJoins(s: W.Stmt, sc: W.Scope, sigs: W.Sigs, ret: TypeRef, temp: nat, lbl: nat,
          d: set<Name>, y: set<Name>, x1: set<Name>, x2: set<Name>, k1: Known, k2: Known)
    returns (x: set<Name>, kn: Known)
    requires s.If? && UsageOf(s, sc, ret).Some? && Hosted(sc, y) && d <= y
    requires var g := Ensured(GenExpr(s.cond, W.Plain(sc), sigs, temp), I32);
             Runs(g.code, d, y, map[]) && NamesIn(g.v.op) <= y
    requires var q := GenTest(s.cond, W.Plain(sc), sigs, temp, lbl, lbl + 1);
             var t := GenStmt(s.thn, W.Plain(sc), sigs, ret, q.temp, lbl + 3);
             var f := GenStmt(s.els, t.env, sigs, ret, t.temp, t.lbl);
             var u1 := UsageOf(s.thn, sc, ret).value;
             var sc1 := W.Close(u1.sc, |sc|);
             var u2 := UsageOf(s.els, sc1, ret).value;
             Flows(t, lbl + 3, y, x1, k1, u1) && Flows(f, t.lbl, y, x2, k2, u2) &&
             lbl + 3 <= t.lbl <= f.lbl && t.exits == W.Exits(s.thn) && f.exits == W.Exits(s.els) &&
             Extends(sc, u1.sc) && Extends(sc1, u2.sc)
    ensures Flows(GenStmt(s, W.Plain(sc), sigs, ret, temp, lbl), lbl, d, x, kn, UsageOf(s, sc, ret).value)
  {
    hide Runs, W.Plain, Hosted, Flow, GenExpr, GenTest, Ensured, Closed, UsesOk, GenStmt, Extends, W.Close, After;
    var env := W.Plain(sc);
    var q := GenTest(s.cond, env, sigs, temp, lbl, lbl + 1);
    IfCode(s, env, sigs, ret, temp, lbl);
    var t := GenStmt(s.thn, env, sigs, ret, q.temp, lbl + 3);
    var f := GenStmt(s.els, t.env, sigs, ret, t.temp, t.lbl);
    var u1 := UsageOf(s.thn, sc, ret).value;
    var u2 := UsageOf(s.els, W.Close(u1.sc, |sc|), ret).value;
    FlowsEnd(t, lbl + 3, y, x1, k1, u1);
    FlowsEnd(f, t.lbl, y, x2, k2, u2);
    x := Landing(y, x1, x2, t.exits, f.exits);
    kn := (k1 + k2)[lbl := y][lbl + 1 := y][lbl + 2 := x];
    if !(t.exits && f.exits) {
      HostedLanding(sc, u1.sc, u2.sc, y, x1, x2, t.exits, f.exits);
    }
    TestFlows(s.cond, sc, sigs, temp, lbl, lbl + 1, d, y, kn);
    BranchFlows(t, lbl, lbl + 2, lbl + 3, y, x1, k1, u1, kn);
    BranchFlows(f, lbl + 1, lbl + 2, t.lbl, y, x2, k2, u2, kn);
    LandingFlows(lbl + 2, kn);
    FlowEmpty(Dead, kn);
    Flow4(q.code, [Label(lbl)] + Closed(t.code, t.exits, lbl + 2), [Label(lbl + 1)] + Closed(f.code, f.exits, lbl + 2),
          if t.exits && f.exits then [] else [Label(lbl + 2)], Live(d), kn);
  }

  lemma {:induction false} FlowEmpty(p: Point, kn: Known)
    ensures Flow([], p, kn) == Some(p)
  {
  }

  lemma {:induction false} LoopStartFlows(lbl: nat, d: set<Name>, kn: Known)
    requires lbl in kn && kn[lbl] == d
    ensures Flow([Br(lbl), Label(lbl)], Live(d), kn) == Some(Live(d))
  {
    assert [Br(lbl)] + [Label(lbl)] == [Br(lbl), Label(lbl)] && [Br(lbl)][1..] == [];
    FlowAppend([Br(lbl)], [Label(lbl)], Live(d), kn);
    LandingFlows(lbl, kn);
  }

  lemma {:induction false} WhileFlows(s: W.Stmt, sc: W.Scope, sigs: W.Sigs, ret: TypeRef, temp: nat, lbl: nat,
          d: set<Name>)
    returns (x: set<Name>, kn: Known)
    requires s.While? && UsageOf(s, sc, ret).Some? && Hosted(sc, d)
    ensures Flows(GenStmt(s, W.Plain(sc), sigs, ret, temp, lbl), lbl, d, x, kn, UsageOf(s, sc, ret).value)
    decreases s, 1
  {
    hide Runs, W.Plain, Hosted, Flow, Flows, GenExpr, Ensured, Closed, UsesOk, Extends, W.Close;
    var env := W.Plain(sc);
    var q := GenTest(s.cond, env, sigs, temp, lbl + 1, lbl + 2);
    var y := EnsuredRuns(s.cond, I32, sc, sigs, temp, d, map[]);
    RunsGrows(Ensured(GenExpr(s.cond, env, sigs, temp), I32).code, d, y, map[]);
    HostedMore(sc, d, y);
    var b := GenStmt(s.body, env, sigs, ret, q.temp, lbl + 3);
    var u := UsageOf(s.body, sc, ret).value;
    UsageExtends(s.body, sc, ret);
    HostedClose(sc, u.sc, y);
    StmtShape(s.body, env, sigs, ret, q.temp, lbl + 3);
    var x1, k1 := StmtFlows(s.body, sc, sigs, ret, q.temp, lbl + 3, y);
    x, kn := WhileJoins(s, sc, sigs, ret, temp, lbl, d, y, x1, k1);
  }

  /** The parts of a loop put together. */
  lemma {:induction false} WhileJoins(s: W.Stmt, sc: W.Scope, sigs: W.Sigs, ret: TypeRef, temp: nat, lbl: nat,
          d: set<Name>, y: set<Name>, x1: set<Name>, k1: Known)
    returns (x: set<Name>, kn: Known)
    requires s.While? && UsageOf(s, sc, ret).Some? && d <= y
    requires var g := Ensured(GenExpr(s.cond, W.Plain(sc), sigs, temp), I32);
             Runs(g.code, d, y, map[]) && NamesIn(g.v.op) <= y
    requires var q := GenTest(s.cond, W.Plain(sc), sigs, temp, lbl + 1, lbl + 2);
             var b := GenStmt(s.body, W.Plain(sc), sigs, ret, q.temp, lbl + 3);
             Flows(b, lbl + 3, y, x1, k1, UsageOf(s.body, sc, ret).value) && lbl + 3 <= b.lbl
    requires Hosted(W.Close(UsageOf(s.body, sc, ret).value.sc, |sc|), y)
    ensures Flows(GenStmt(s, W.Plain(sc), sigs, ret, temp, lbl), lbl, d, x, kn, UsageOf(s, sc, ret).value)
  {
    hide Runs, W.Plain, Hosted, Flow, GenExpr, GenTest, Ensured, Closed, UsesOk, GenStmt, W.Close;
    var env := W.Plain(sc);
    var q := GenTest(s.cond, env, sigs, temp, lbl + 1, lbl + 2);
    var b := GenStmt(s.body, env, sigs, ret, q.temp, lbl + 3);
    var u := UsageOf(s.body, sc, ret).value;
    WhileParts(s, env, sigs, ret, temp, lbl);
    FlowsEnd(b, lbl + 3, y, x1, k1, u);
    kn := k1[lbl := d][lbl + 1 := y][lbl + 2 := y];
    x := y;
    LoopStartFlows(lbl, d, kn);
    TestFlows(s.cond, sc, sigs, temp, lbl + 1, lbl + 2, d, y, kn);
    BranchFlows(b, lbl + 1, lbl, lbl + 3, y, x1, k1, u, kn);
    LandingFlows(lbl + 2, kn);
    LoopFlow([Br(lbl), Label(lbl)], q.code, [Label(lbl + 1)] + Closed(b.code, b.exits, lbl), [Label(lbl + 2)], d, kn);
  }

  lemma {:induction false} LoopFlow(h: seq<Instr>, q: seq<Instr>, b: seq<Instr>, e: seq<Instr>, d: set<Name>, kn: Known)
    requires Flow(h, Live(d), kn) == Some(Live(d)) && Flow(q, Live(d), kn) == Some(Dead)
    requires Flow(b, Dead, kn) == Some(Dead)
    ensures Flow(h + q + b + e, Live(d), kn) == Flow(e, Dead, kn)
  {
    FlowAppend(h, q, Live(d), kn);
    FlowAppend(h + q, b, Live(d), kn);
    FlowAppend(h + q + b, e, Live(d), kn);
  }

  // ---------- functions ----------

  /** The header of any function, whose parameters may share names. */
  lemma {:induction false} HeaderRuns(ps: seq<Entry>, k: nat, kn: Known) returns (x: set<Name>)
    requires k <= |ps|
    ensures Runs(GenHeader(ps[..k], ps), {}, x, kn)
    ensures forall j :: 0 <= j < k ==> S(SsaOf(ps, ps[j].name)) in x
  {
    hide Runs, SsaOf;
    x := {};
    if k == 0 {
      RunsNone({}, kn);
    } else {
      var y := HeaderRuns(ps, k - 1, kn);
      assert ps[..k][..k - 1] == ps[..k - 1];
      var ssa := SsaOf(ps, ps[k - 1].name);
      RunsGrows(GenHeader(ps[..k - 1], ps), {}, y, kn);
      RunsTwo(Alloca(ssa, ps[k - 1].ty), StoreSlot(ps[k - 1].ty, Param(ssa), ssa), y, kn);
      x := y + {S(ssa)};
      assert y + {S(ssa)} + {} == x;
      RunsAppend(GenHeader(ps[..k - 1], ps), [Alloca(ssa, ps[k - 1].ty), StoreSlot(ps[k - 1].ty, Param(ssa), ssa)],
                 {}, y, x, kn);
    }
  }

  lemma {:induction false} EndFlows(last: Option<GVal>, ret: TypeRef, temp: nat, d: set<Name>, kn: Known)
    requires !ret.Void? && last.Some? ==> NamesIn(last.value.op) <= d
    ensures Flow(GenEnd(last, ret, temp).code, Live(d), kn) == Some(Dead)
  {
    hide Ensure;
    var g := GenEnd(last, ret, temp);
    if ret.Void? || last.None? {
      assert g.code[1..] == [];
    } else {
      var c := Ensure(last.value, ret, temp);
      var x := EnsureRuns(last.value, ret, temp, d, kn);
      FlowAppend(c.code, [Ret(ret, c.v.op)], Live(d), kn);
      assert [Ret(ret, c.v.op)][1..] == [];
    }
  }

  lemma {:induction false} ParamsHosted(ps: seq<Entry>, d: set<Name>)
    requires forall j :: 0 <= j < |ps| ==> S(SsaOf(ps, ps[j].name)) in d
    ensures Hosted(Incoming(ps), d)
  {
  }

  lemma {:induction false} PlainIncoming(ps: seq<Entry>)
    ensures W.Plain(Incoming(ps)) == ps
  {
  }

  /** The code of a function that passes the check passes the linear one. */
  lemma {:induction false} ScopedFlows(fn: W.FnDef, sigs: W.Sigs, temp: nat, lbl: nat) returns (kn: Known)
    requires ScopedFn(fn)
    ensures Flow(GenFn(fn, sigs, temp, lbl).fn.code, Live({}), kn).Some?
  {
    hide Flow, GenList, GenHeader, GenEnd, Runs, UsageOfList, Hosted, W.Plain, Incoming;
    var sc := Incoming(fn.params);
    PlainIncoming(fn.params);
    var h := GenHeader(fn.params, fn.params);
    assert fn.params[..|fn.params|] == fn.params;
    var d := HeaderRuns(fn.params, |fn.params|, map[]);
    ParamsHosted(fn.params, d);
    var b := GenList(fn.body, fn.params, sigs, fn.ret, temp, lbl);
    var u := UsageOfList(fn.body, sc, fn.ret).value;
    ListShape(fn.body, fn.params, sigs, fn.ret, temp, lbl);
    var x;
    x, kn := ListFlows(fn.body, sc, sigs, fn.ret, temp, lbl, d);
    RunsAgrees(h, {}, d, map[], kn);
    FlowsAfter(h, b, lbl, {}, d, x, kn, u);
    if b.exits {
      assert h + b.code + [] == h + b.code;
    } else {
      assert LastUsable(b.last, u.value, x) && (fn.ret.Void? || u.value != Some(false));
      if u.value.Some? && !fn.ret.Void? {
        assert u.value.value;
      }
      EndFlows(b.last, fn.ret, b.temp, x, kn);
      FlowAppend(h + b.code, GenEnd(b.last, fn.ret, b.temp).code, Live({}), kn);
    }
  }

  /** In the output for a function that passes the check, along every path from its entry,
      whatever an instruction uses has been defined: each use is dominated by a definition. */
  lemma {:induction false} ScopedDominates(fn: W.FnDef, sigs: W.Sigs, temp: nat, lbl: nat)
    requires ScopedFn(fn)
    ensures Dominated(GenFn(fn, sigs, temp, lbl).fn.code)
  {
    hide Flow, GenFn, ScopedFn, Uses, DefinedOn, Successors;
    var code := GenFn(fn, sigs, temp, lbl).fn.code;
    var kn := ScopedFlows(fn, sigs, temp, lbl);
    forall path | IsPath(code, path) ensures Uses(code[path[|path| - 1]]) <= DefinedOn(code, path) {
      FlowIsSound(code, kn, path);
    }
  }

  /** So it is in every function that obeys the rules under which code is correct. */
  lemma {:induction false} DefinitionsDominateUses(fn: W.FnDef, sigs: W.Sigs, temp: nat, lbl: nat)
    requires W.FnOk(fn, sigs)
    ensures Dominated(GenFn(fn, sigs, temp, lbl).fn.code)
  {
    CheckedIsScoped(fn, sigs);
    ScopedDominates(fn, sigs, temp, lbl);
  }
}
