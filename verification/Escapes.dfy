/** The check of `Usability` is exact: in the output for a function that does not pass it,
    some path through the blocks escapes the alloca of a variable that it uses. */
module Escapes {
  import opened Wrappers
  import opened Types
  import opened Env
  import opened Ir
  import opened Gen
  import opened Blocks
  import opened Scoping
  import opened Usability
  import opened Dominance
  import Simulation
  import W = Weave

  // ---------- following one name ----------

  /** Whether some path gets here without defining a name, and the labels that such paths
      jump to. */
  datatype Trace = Trace(here: bool, at: set<nat>)

  function Advance(i: Instr, nm: Name, t: Trace): Trace {
    match i
    case Label(l) => Trace(t.here || l in t.at, t.at)
    case Br(l) => Trace(false, if t.here then t.at + {l} else t.at)
    case CondBr(_, l1, l2) => Trace(false, if t.here then t.at + {l1, l2} else t.at)
    case Ret(_, _) => Trace(false, t.at)
    case RetVoid => Trace(false, t.at)
    case _ => Trace(t.here && nm !in Defs(i), t.at)
  }

  /** One scan of the code from front to back; jumps backwards are not followed. */
  function Follow(code: seq<Instr>, nm: Name, t: Trace): Trace {
    if code == [] then t else Follow(code[1..], nm, Advance(code[0], nm, t))
  }

  /** The scan comes upon a use of the name. */
  predicate Hits(code: seq<Instr>, nm: Name, t: Trace) {
    code != [] && ((t.here && nm in Uses(code[0])) || Hits(code[1..], nm, Advance(code[0], nm, t)))
  }

  lemma {:induction false} FollowAppend(a: seq<Instr>, b: seq<Instr>, nm: Name, t: Trace)
    ensures Follow(a + b, nm, t) == Follow(b, nm, Follow(a, nm, t))
    ensures Hits(a + b, nm, t) <==> Hits(a, nm, t) || Hits(b, nm, Follow(a, nm, t))
  {
    if a == [] {
      assert a + b == b;
    } else {
      assert (a + b)[1..] == a[1..] + b;
      FollowAppend(a[1..], b, nm, Advance(a[0], nm, t));
    }
  }

  ghost predicate Before(t: Trace, u: Trace) {
    (t.here ==> u.here) && t.at <= u.at
  }

  lemma {:induction false} FollowMore(code: seq<Instr>, nm: Name, t: Trace, u: Trace)
    requires Before(t, u)
    ensures Before(Follow(code, nm, t), Follow(code, nm, u))
    ensures Hits(code, nm, t) ==> Hits(code, nm, u)
  {
    if code != [] {
      FollowMore(code[1..], nm, Advance(code[0], nm, t), Advance(code[0], nm, u));
    }
  }

  lemma {:induction false} FollowKeeps(code: seq<Instr>, nm: Name, t: Trace)
    ensures t.at <= Follow(code, nm, t).at
  {
    if code != [] {
      FollowKeeps(code[1..], nm, Advance(code[0], nm, t));
    }
  }

  // ---------- the scan finds real paths ----------

  /** Some path arrives at `i` without having defined the name. */
  ghost predicate Misses(code: seq<Instr>, nm: Name, i: nat) {
    exists path :: IsPath(code, path) && path[|path| - 1] == i && nm !in DefinedOn(code, path)
  }

  lemma {:induction false} MissesOn(code: seq<Instr>, nm: Name, i: nat, j: nat)
    requires Misses(code, nm, i) && j < |code| && j in Successors(code, i) && nm !in Defs(code[i])
    ensures Misses(code, nm, j)
  {
    hide Successors, Defs;
    var path :| IsPath(code, path) && path[|path| - 1] == i && nm !in DefinedOn(code, path);
    var longer := path + [j];
    assert longer[..|longer| - 1] == path;
    forall k | 0 <= k < |longer| - 1 ensures longer[k + 1] in Successors(code, longer[k]) {
      if k == |path| - 1 {
        assert longer[k] == i && longer[k + 1] == j;
      } else {
        assert longer[k] == path[k] && longer[k + 1] == path[k + 1];
      }
    }
  }

  ghost predicate UniqueLabels(code: seq<Instr>) {
    forall l: nat :: LabelDefs(code, l) <= 1
  }

  /** What a scan of the first `i` instructions says is true. */
  ghost predicate Truthful(code: seq<Instr>, nm: Name, i: nat, t: Trace) {
    (t.here && i < |code| ==> Misses(code, nm, i)) &&
    forall j: nat :: j < |code| && code[j].Label? && code[j].l in t.at ==> Misses(code, nm, j)
  }

  lemma {:induction false} AdvanceTruthful(code: seq<Instr>, nm: Name, i: nat, t: Trace)
    requires UniqueLabels(code) && i < |code| && Truthful(code, nm, i, t)
    ensures Truthful(code, nm, i + 1, Advance(code[i], nm, t))
  {
    hide Misses, Defs, LabelDefs;
    var c := code[i];
    var u := Advance(c, nm, t);
    LabelUsesNothing(c);
    BranchDefinesNothing(c);
    if u.here && i + 1 < |code| {
      assert i + 1 in Successors(code, i);
      MissesOn(code, nm, i, i + 1);
    }
    forall j: nat | j < |code| && code[j].Label? && code[j].l in u.at && code[j].l !in t.at
      ensures Misses(code, nm, j)
    {
      FindLabelAt(code, j);
      MissesOn(code, nm, i, j);
    }
  }

  const START := Trace(true, {})

  lemma {:induction false} FollowTruthful(code: seq<Instr>, nm: Name, i: nat)
    requires UniqueLabels(code) && i <= |code|
    ensures Truthful(code, nm, i, Follow(code[..i], nm, START))
  {
    hide UniqueLabels, Advance;
    if i == 0 {
      if code != [] {
        assert IsPath(code, [0]) && [0][|[0]| - 1] == 0 && DefinedOn(code, [0]) == {};
      }
    } else {
      FollowTruthful(code, nm, i - 1);
      assert code[..i] == code[..i - 1] + [code[i - 1]];
      FollowAppend(code[..i - 1], [code[i - 1]], nm, START);
      assert [code[i - 1]][1..] == [];
      AdvanceTruthful(code, nm, i - 1, Follow(code[..i - 1], nm, START));
    }
  }

  lemma {:induction false} HitsAt(code: seq<Instr>, nm: Name, t: Trace) returns (i: nat)
    requires Hits(code, nm, t)
    ensures i < |code| && Follow(code[..i], nm, t).here && nm in Uses(code[i])
  {
    hide Uses, Advance;
    if t.here && nm in Uses(code[0]) {
      i := 0;
    } else {
      var k := HitsAt(code[1..], nm, Advance(code[0], nm, t));
      i := k + 1;
      assert code[..i][1..] == code[1..][..k];
    }
  }

  /** A use that the scan comes upon is not dominated by a definition. */
  lemma {:induction false} HitsBreak(code: seq<Instr>, nm: Name)
    requires UniqueLabels(code) && Hits(code, nm, START)
    ensures !Dominated(code)
  {
    hide Hits, Follow, Uses, UniqueLabels, Successors;
    var i := HitsAt(code, nm, START);
    FollowTruthful(code, nm, i);
    var path :| IsPath(code, path) && path[|path| - 1] == i && nm !in DefinedOn(code, path);
  }

  // ---------- pieces of code ----------

  /** Some way through the code passes by the alloca `ssa`. */
  ghost predicate Passes(code: seq<Instr>, ssa: string) {
    Follow(code, S(ssa), START).here
  }

  /** Some way into the code uses the alloca `ssa` without having passed it. */
  ghost predicate Breaks(code: seq<Instr>, ssa: string) {
    Hits(code, S(ssa), START)
  }

  lemma {:induction false} PassesOn(a: seq<Instr>, b: seq<Instr>, ssa: string)
    ensures Breaks(a, ssa) ==> Breaks(a + b, ssa)
    ensures Passes(a, ssa) && Passes(b, ssa) ==> Passes(a + b, ssa)
    ensures Passes(a, ssa) && Breaks(b, ssa) ==> Breaks(a + b, ssa)
  {
    var t := Follow(a, S(ssa), START);
    FollowAppend(a, b, S(ssa), START);
    if t.here {
      FollowMore(b, S(ssa), START, t);
    }
  }

  /** Straight-line code without the alloca. */
  ghost predicate Calm(code: seq<Instr>, ssa: string) {
    forall i :: i in code ==> !i.Label? && !IsTerminator(i) && S(ssa) !in Defs(i)
  }

  function AllUses(code: seq<Instr>): set<Name> {
    if code == [] then {} else Uses(code[0]) + AllUses(code[1..])
  }

  lemma {:induction false} AllUsesAppend(a: seq<Instr>, b: seq<Instr>)
    ensures AllUses(a + b) == AllUses(a) + AllUses(b)
  {
    hide Uses;
    if a == [] {
      assert a + b == b;
    } else {
      assert (a + b)[1..] == a[1..] + b;
      AllUsesAppend(a[1..], b);
    }
  }

  lemma {:induction false} CalmPasses(code: seq<Instr>, ssa: string)
    requires Calm(code, ssa)
    ensures Follow(code, S(ssa), START) == START
    ensures S(ssa) in AllUses(code) ==> Breaks(code, ssa)
  {
    hide Uses, Defs;
    if code != [] {
      assert Advance(code[0], S(ssa), START) == START by {
        assert code[0] in code;
      }
      CalmPasses(code[1..], ssa);
    }
  }

  /** A use behind straight-line code. */
  lemma {:induction false} CalmBreaks(a: seq<Instr>, i: Instr, ssa: string)
    requires Calm(a, ssa) && S(ssa) in AllUses(a) + Uses(i)
    ensures Breaks(a + [i], ssa)
  {
    CalmPasses(a, ssa);
    PassesOn(a, [i], ssa);
  }

  lemma {:induction false} CalmOne(i: Instr, ssa: string)
    requires !i.Label? && !IsTerminator(i) && S(ssa) !in Defs(i)
    ensures Calm([i], ssa) && AllUses([i]) == Uses(i)
  {
  }

  // ---------- expressions ----------

  /** Every declared variable of `xs` is used in the code, or is among `ops`. */
  ghost predicate Mentions(code: seq<Instr>, ops: set<Name>, xs: set<string>, env: seq<Entry>) {
    forall x :: x in xs && Find(env, x) >= 0 ==> S(SsaOf(env, x)) in AllUses(code) + ops
  }

  /** The code of an expression, and its operand, mention what the expression mentions. */
  ghost predicate Faithful(g: GenE, xs: set<string>, env: seq<Entry>, ssa: string) {
    Calm(g.code, ssa) && (!g.fatal ==> Mentions(g.code, NamesIn(g.v.op), xs, env))
  }

  lemma {:induction false} MentionsOn(a: seq<Instr>, b: seq<Instr>, ops: set<Name>, ops': set<Name>, xs: set<string>,
          env: seq<Entry>)
    requires Mentions(a, ops, xs, env) && ops <= AllUses(b) + ops'
    ensures Mentions(a + b, ops', xs, env)
  {
    AllUsesAppend(a, b);
  }

  lemma {:induction false} MentionsBoth(a: seq<Instr>, b: seq<Instr>, o1: set<Name>, o2: set<Name>, xs: set<string>,
          ys: set<string>, env: seq<Entry>)
    requires Mentions(a, o1, xs, env) && Mentions(b, o2, ys, env)
    ensures Mentions(a + b, o1 + o2, xs + ys, env)
  {
    AllUsesAppend(a, b);
  }

  lemma {:induction false} EnsureMentions(v: GVal, ty: TypeRef, temp: nat, ssa: string)
    ensures var g := Ensure(v, ty, temp);
            Calm(g.code, ssa) && (!g.fatal ==> NamesIn(v.op) <= AllUses(g.code) + NamesIn(g.v.op))
  {
    var g := Ensure(v, ty, temp);
    if g.code != [] {
      CalmOne(g.code[0], ssa);
      assert g.code == [g.code[0]];
    }
  }

  lemma {:induction false} EnsuredMentions(g: GenE, ty: TypeRef, xs: set<string>, env: seq<Entry>, ssa: string)
    requires Faithful(g, xs, env, ssa)
    ensures Faithful(Ensured(g, ty), xs, env, ssa)
  {
    hide Ensure, Mentions;
    var c := Ensure(g.v, ty, g.temp);
    EnsureMentions(g.v, ty, g.temp, ssa);
    if !g.fatal && !c.fatal {
      MentionsOn(g.code, c.code, NamesIn(g.v.op), NamesIn(c.v.op), xs, env);
    }
  }

  lemma {:induction false} CmpMentions(o: W.CmpOp, l: GVal, r: GVal, t: nat, ssa: string)
    ensures var g := GenCmp(o, l, r, t);
            Calm(g.code, ssa) && (!g.fatal ==> NamesIn(l.op) + NamesIn(r.op) <= AllUses(g.code))
  {
    hide Ensure, W.OperandType;
    var ty := W.OperandType(W.Cmp(o), l.ty, r.ty);
    var a := Ensure(l, ty, t + 2);
    var b := Ensure(r, ty, a.temp);
    EnsureMentions(l, ty, t + 2, ssa);
    EnsureMentions(r, ty, a.temp, ssa);
    var i, j := Icmp(t, PredOf(o), ty, a.v.op, b.v.op), Zext(t + 1, Temp(t));
    AllUsesAppend(a.code, b.code);
    AllUsesAppend(a.code + b.code, [i, j]);
    PairMentions(i, j, ssa);
  }

  lemma {:induction false} LogicMentions(o: W.LogicOp, l: GVal, r: GVal, t: nat, ssa: string)
    ensures var g := GenTail(W.Logic(o), l, r, t);
            Calm(g.code, ssa) && NamesIn(l.op) + NamesIn(r.op) <= AllUses(g.code)
  {
    hide NamesIn, Calm, AllUses;
    var i, j := Icmp(t, Ne, I32, l.op, Const(0)), Icmp(t + 1, Ne, I32, r.op, Const(0));
    var m, n := BoolOp(t + 2, BoolOpOf(o), Temp(t), Temp(t + 1)), Zext(t + 3, Temp(t + 2));
    PairMentions(i, j, ssa);
    PairMentions(m, n, ssa);
    AllUsesAppend([i, j], [m, n]);
    CalmJoin([i, j], [m, n], ssa);
    assert [i, j] + [m, n] == GenTail(W.Logic(o), l, r, t).code;
  }

  lemma {:induction false} PairMentions(i: Instr, j: Instr, ssa: string)
    requires !i.Label? && !IsTerminator(i) && S(ssa) !in Defs(i) && !j.Label? && !IsTerminator(j) && S(ssa) !in Defs(j)
    ensures Calm([i, j], ssa) && AllUses([i, j]) == Uses(i) + Uses(j)
  {
    hide Uses, Defs;
    CalmOne(i, ssa);
    CalmOne(j, ssa);
    CalmJoin([i], [j], ssa);
    AllUsesAppend([i], [j]);
    assert [i] + [j] == [i, j];
  }

  lemma {:induction false} TailMentions(op: W.Operator, l: GVal, r: GVal, t: nat, ssa: string)
    ensures var g := GenTail(op, l, r, t);
            Calm(g.code, ssa) && (!g.fatal ==> NamesIn(l.op) + NamesIn(r.op) <= AllUses(g.code))
  {
    match op
    case Arith(o) => CalmOne(Bin(t, BinOpOf(o), l.op, r.op), ssa);
    case Cmp(o) => CmpMentions(o, l, r, t, ssa);
    case Logic(o) => LogicMentions(o, l, r, t, ssa);
  }

  lemma {:induction false} ExprMentions(e: W.Expr, env: seq<Entry>, sigs: W.Sigs, temp: nat, ssa: string)
    ensures Faithful(GenExpr(e, env, sigs, temp), Vars(e), env, ssa)
    decreases e, 1
  {
    hide Calm, Mentions, AllUses, SsaOf, Find;
    var g := GenExpr(e, env, sigs, temp);
    match e
    case Const(_) => LeafMentions(g, {}, env, ssa);
    case Var(x) =>
      if TypeOf(env, x).Some? {
        CalmOne(g.code[0], ssa);
        assert g.code == [g.code[0]];
        OneMentions(g.code, NamesIn(g.v.op), x, env);
      } else {
        LeafMentions(g, {x}, env, ssa);
      }
    case AddrOf(x) => LeafMentions(g, {x}, env, ssa);
    case Binary(_, _, _) => BinaryMentions(e, env, sigs, temp, ssa);
    case Deref(_, p) =>
      ExprMentions(p, env, sigs, temp, ssa);
      LoadMentions(e, env, sigs, temp, ssa);
    case CallFn(f, args) =>
      ArgsMention(args, f, 0, env, sigs, temp, ssa);
      CallMentions(e, env, sigs, temp, ssa);
  }

  lemma {:induction false} LoadMentions(e: W.Expr, env: seq<Entry>, sigs: W.Sigs, temp: nat, ssa: string)
    requires e.Deref? && Faithful(GenExpr(e.p, env, sigs, temp), Vars(e.p), env, ssa)
    ensures Faithful(GenExpr(e, env, sigs, temp), Vars(e), env, ssa)
  {
    hide Calm, Mentions, AllUses, NamesIn;
    var q := GenExpr(e.p, env, sigs, temp);
    var i := Load(q.temp, e.ty, q.v.ty, q.v.op);
    CalmOne(i, ssa);
    CalmJoin(q.code, [i], ssa);
    if !q.fatal {
      MentionsOn(q.code, [i], NamesIn(q.v.op), NamesIn(Temp(q.temp)), Vars(e.p), env);
    }
  }

  lemma {:induction false} CallMentions(e: W.Expr, env: seq<Entry>, sigs: W.Sigs, temp: nat, ssa: string)
    requires e.CallFn?
    requires var a := GenArgs(e.args, e.f, 0, env, sigs, temp);
             Calm(a.code, ssa) && (!a.fatal ==> Mentions(a.code, NamesInArgs(a.args), VarsIn(e.args), env))
    ensures Faithful(GenExpr(e, env, sigs, temp), Vars(e), env, ssa)
  {
    hide Calm, Mentions, AllUses, NamesIn, GenExpr, GenArgs;
    var g := GenExpr(e, env, sigs, temp);
    var a := GenArgs(e.args, e.f, 0, env, sigs, temp);
    Simulation.CallCode(e, env, sigs, temp);
    var i := Simulation.CallInstr(e, a, sigs);
    CalmOne(i, ssa);
    CalmJoin(a.code, [i], ssa);
    if !a.fatal {
      MentionsOn(a.code, [i], NamesInArgs(a.args), NamesIn(g.v.op), VarsIn(e.args), env);
    }
  }

  lemma {:induction false} CalmJoin(a: seq<Instr>, b: seq<Instr>, ssa: string)
    requires Calm(a, ssa) && Calm(b, ssa)
    ensures Calm(a + b, ssa)
  {
  }

  lemma {:induction false} LeafMentions(g: GenE, xs: set<string>, env: seq<Entry>, ssa: string)
    requires g.code == []
    requires forall x :: x in xs && Find(env, x) >= 0 ==> g.v.op == Slot(SsaOf(env, x))
    ensures Faithful(g, xs, env, ssa)
  {
  }

  lemma {:induction false} OneMentions(code: seq<Instr>, ops: set<Name>, x: string, env: seq<Entry>)
    requires S(SsaOf(env, x)) in AllUses(code)
    ensures Mentions(code, ops, {x}, env)
  {
  }

  lemma {:induction false} BinaryMentions(e: W.Expr, env: seq<Entry>, sigs: W.Sigs, temp: nat, ssa: string)
    requires e.Binary?
    ensures Faithful(GenExpr(e, env, sigs, temp), Vars(e), env, ssa)
    decreases e, 0
  {
    hide Calm, Mentions, GenTail, Ensured, NamesIn;
    var l0 := GenExpr(e.lhs, env, sigs, temp);
    var l := OperandCode(e.op, l0);
    var r0 := GenExpr(e.rhs, env, sigs, l.temp);
    var r := OperandCode(e.op, r0);
    var t := GenTail(e.op, l.v, r.v, r.temp);
    ExprMentions(e.lhs, env, sigs, temp, ssa);
    ExprMentions(e.rhs, env, sigs, l.temp, ssa);
    EnsuredMentions(l0, I32, Vars(e.lhs), env, ssa);
    EnsuredMentions(r0, I32, Vars(e.rhs), env, ssa);
    TailMentions(e.op, l.v, r.v, r.temp, ssa);
    CalmJoin(l.code, r.code, ssa);
    CalmJoin(l.code + r.code, t.code, ssa);
    BinaryParts(e, env, sigs, temp);
    var g := GenExpr(e, env, sigs, temp);
    if !g.fatal {
      MentionsBoth(l.code, r.code, NamesIn(l.v.op), NamesIn(r.v.op), Vars(e.lhs), Vars(e.rhs), env);
      MentionsOn(l.code + r.code, t.code, NamesIn(l.v.op) + NamesIn(r.v.op), NamesIn(g.v.op), Vars(e), env);
    }
  }

  lemma {:induction false} ArgsMention(es: seq<W.Expr>, f: string, i: nat, env: seq<Entry>, sigs: W.Sigs, temp: nat,
          ssa: string)
    ensures var g := GenArgs(es, f, i, env, sigs, temp);
            Calm(g.code, ssa) && (!g.fatal ==> Mentions(g.code, NamesInArgs(g.args), VarsIn(es), env))
    decreases es, 0
  {
    hide Ensured, GenExpr, NamesIn;
    if es != [] {
      var h0 := GenExpr(es[0], env, sigs, temp);
      var h := Ensured(h0, ParamType(sigs, f, i));
      var t := GenArgs(es[1..], f, i + 1, env, sigs, h.temp);
      var g := GenArgs(es, f, i, env, sigs, temp);
      ExprMentions(es[0], env, sigs, temp, ssa);
      EnsuredMentions(h0, ParamType(sigs, f, i), Vars(es[0]), env, ssa);
      ArgsMention(es[1..], f, i + 1, env, sigs, h.temp, ssa);
      assert g.args[1..] == t.args;
      if !h.fatal && !t.fatal {
        MentionsBoth(h.code, t.code, NamesIn(h.v.op), NamesInArgs(t.args), Vars(es[0]), VarsIn(es[1..]), env);
      }
    }
  }

  /** `ssa` is the alloca of a declaration that is not live. */
  ghost predicate DeadSlot(ssa: string, sc: W.Scope) {
    exists k :: 0 <= k < |sc| && !sc[k].live && SsaName(sc[k].e.name, k) == ssa
  }

  lemma {:induction false} DeadIsNotLive(ssa: string, sc: W.Scope)
    requires DeadSlot(ssa, sc)
    ensures !HasSlot(ssa, sc)
  {
    hide SsaName;
    var k :| 0 <= k < |sc| && !sc[k].live && SsaName(sc[k].e.name, k) == ssa;
    if HasSlot(ssa, sc) {
      var j :| 0 <= j < |sc| && sc[j].live && SsaName(sc[j].e.name, j) == ssa;
      SsaNamesDistinct(sc[k].e.name, k, sc[j].e.name, j);
    }
  }

  lemma {:induction false} DeadName(e: W.Expr, sc: W.Scope) returns (x: string)
    requires !UsesOk(e, sc)
    ensures x in Vars(e) && Find(W.Plain(sc), x) >= 0 && DeadSlot(SsaOf(W.Plain(sc), x), sc)
  {
    hide SsaName;
    x :| x in Vars(e) && Find(W.Plain(sc), x) >= 0 && !W.Resolves(x, sc);
    FindIsLast(W.Plain(sc), x);
    var k := Find(W.Plain(sc), x);
    assert sc[k].e.name == x && !sc[k].live;
  }

  /** A variable that is mentioned but not live. */
  lemma {:induction false} DeadVar(e: W.Expr, sc: W.Scope, sigs: W.Sigs, temp: nat) returns (ssa: string)
    requires !UsesOk(e, sc) && !GenExpr(e, W.Plain(sc), sigs, temp).fatal
    ensures DeadSlot(ssa, sc) && !HasSlot(ssa, sc)
    ensures var g := GenExpr(e, W.Plain(sc), sigs, temp);
            Calm(g.code, ssa) && S(ssa) in AllUses(g.code) + NamesIn(g.v.op) &&
            (!e.AddrOf? ==> S(ssa) in AllUses(g.code)) && (e.AddrOf? ==> g.v.op == Slot(ssa))
  {
    hide *;
    var x := DeadName(e, sc);
    ssa := SsaOf(W.Plain(sc), x);
    DeadIsNotLive(ssa, sc);
    ExprMentions(e, W.Plain(sc), sigs, temp, ssa);
    MentionMeans(GenExpr(e, W.Plain(sc), sigs, temp), Vars(e), W.Plain(sc), ssa, x);
    OperandIs(e, W.Plain(sc), sigs, temp, x);
  }

  lemma {:induction false} MentionMeans(g: GenE, xs: set<string>, env: seq<Entry>, ssa: string, x: string)
    requires Faithful(g, xs, env, ssa) && !g.fatal && x in xs && Find(env, x) >= 0
    ensures Calm(g.code, ssa) && S(SsaOf(env, x)) in AllUses(g.code) + NamesIn(g.v.op)
  {
    hide SsaOf, Find, Calm, AllUses;
  }

  /** The operand of an expression is an alloca only if the expression takes its address. */
  lemma {:induction false} OperandIs(e: W.Expr, env: seq<Entry>, sigs: W.Sigs, temp: nat, x: string)
    requires x in Vars(e) && Find(env, x) >= 0
    ensures var o := GenExpr(e, env, sigs, temp).v.op;
            if e.AddrOf? then o == Slot(SsaOf(env, x)) else forall s :: S(s) !in NamesIn(o)
  {
    hide SsaOf, Find;
  }

  // ---------- statements ----------

  lemma {:induction false} OuterSlots(sc: W.Scope, full: W.Scope, ssa: string)
    requires Extends(sc, full) && !HasSlot(ssa, full)
    ensures !HasSlot(ssa, sc)
  {
    hide SsaName;
    forall k | 0 <= k < |sc| && sc[k].live ensures SsaName(sc[k].e.name, k) != ssa {
      assert full[k] == full[..|sc|][k];
    }
  }

  lemma {:induction false} NewSlot(sc: W.Scope, e: Entry, ssa: string)
    requires !HasSlot(ssa, sc + [W.Seen(e, true)])
    ensures !HasSlot(ssa, sc) && ssa != SsaName(e.name, |sc|)
  {
    hide SsaName;
    var full := sc + [W.Seen(e, true)];
    OuterSlots(sc, full, ssa);
    assert full[|sc|] == W.Seen(e, true);
  }

  /** Behind an `if-stmt`, some branch that gets there has not passed what is not live. */
  lemma {:induction false} AfterSlots(sc: W.Scope, t: W.Scope, f: W.Scope, tx: bool, fx: bool, ssa: string)
    requires Extends(sc, t) && Extends(W.Close(t, |sc|), f) && !(tx && fx)
    requires !HasSlot(ssa, After(t, f, |sc|, tx, fx))
    ensures (!tx && !HasSlot(ssa, t)) || (!fx && !HasSlot(ssa, f))
  {
    hide SsaName;
    var r := After(t, f, |sc|, tx, fx);
    if !tx && fx {
      forall k | 0 <= k < |t| && t[k].live ensures SsaName(t[k].e.name, k) != ssa {
        assert r[k] == t[k];
      }
    } else if !tx && HasSlot(ssa, t) {
      var k :| 0 <= k < |t| && t[k].live && SsaName(t[k].e.name, k) == ssa;
      forall j | 0 <= j < |f| ensures f[j].live ==> SsaName(f[j].e.name, j) != ssa {
        if j < |sc| {
          assert r[j] == f[j];
        } else if j < |t| {
          assert f[j] == f[..|t|][j] == W.Close(t, |sc|)[j];
        } else if SsaName(f[j].e.name, j) == SsaName(t[k].e.name, k) {
          SsaNamesDistinct(t[k].e.name, k, f[j].e.name, j);
        }
      }
    }
  }

  /** The test of an `if-stmt` or a loop opens its two labels. */
  lemma {:induction false} TestOpens(c: W.Expr, env: seq<Entry>, sigs: W.Sigs, temp: nat, l1: nat, l2: nat, ssa: string)
    ensures {l1, l2} <= Follow(GenTest(c, env, sigs, temp, l1, l2).code, S(ssa), START).at
  {
    hide GenExpr, Ensured, Mentions, Vars;
    var g := Ensured(GenExpr(c, env, sigs, temp), I32);
    ExprMentions(c, env, sigs, temp, ssa);
    EnsuredMentions(GenExpr(c, env, sigs, temp), I32, Vars(c), env, ssa);
    CalmPasses(g.code, ssa);
    var i, j := Icmp(g.temp, Ne, I32, g.v.op, Const(0)), CondBr(g.temp, l1, l2);
    FollowAppend(g.code, [i, j], S(ssa), START);
    assert [i, j][1..] == [j] && [j][1..] == [];
    assert Advance(i, S(ssa), START) == START && Advance(j, S(ssa), START) == Trace(false, {l1, l2});
    assert Follow([i, j], S(ssa), START) == Follow([j], S(ssa), START) == Trace(false, {l1, l2});
  }

  lemma {:induction false} TestBreaks(c: W.Expr, sc: W.Scope, sigs: W.Sigs, temp: nat, l1: nat, l2: nat)
    returns (ssa: string)
    requires !UsesOk(c, sc) && !GenTest(c, W.Plain(sc), sigs, temp, l1, l2).fatal
    ensures !HasSlot(ssa, sc) && Breaks(GenTest(c, W.Plain(sc), sigs, temp, l1, l2).code, ssa)
  {
    hide UsesOk, HasSlot, GenExpr, Breaks, Calm;
    var g := Ensured(GenExpr(c, W.Plain(sc), sigs, temp), I32);
    var i, j := Icmp(g.temp, Ne, I32, g.v.op, Const(0)), CondBr(g.temp, l1, l2);
    ssa := EnsuredDead(c, I32, sc, sigs, temp);
    CalmBreaks(g.code, i, ssa);
    PassesOn(g.code + [i], [j], ssa);
    assert g.code + [i] + [j] == g.code + [i, j];
  }

  lemma {:induction false} EnsuredDead(e: W.Expr, ty: TypeRef, sc: W.Scope, sigs: W.Sigs, temp: nat)
    returns (ssa: string)
    requires !UsesOk(e, sc) && !Ensured(GenExpr(e, W.Plain(sc), sigs, temp), ty).fatal
    ensures !HasSlot(ssa, sc)
    ensures var g := Ensured(GenExpr(e, W.Plain(sc), sigs, temp), ty);
            Calm(g.code, ssa) && S(ssa) in AllUses(g.code) + NamesIn(g.v.op)
  {
    hide UsesOk, HasSlot, GenExpr, Ensure, Calm, DeadSlot;
    var g := GenExpr(e, W.Plain(sc), sigs, temp);
    var c := Ensure(g.v, ty, g.temp);
    ssa := DeadVar(e, sc, sigs, temp);
    EnsureMentions(g.v, ty, g.temp, ssa);
    AllUsesAppend(g.code, c.code);
    CalmJoin(g.code, c.code, ssa);
  }

  /** A labelled branch whose label has been opened. */
  lemma {:induction false} BranchPasses(code: seq<Instr>, exits: bool, l: nat, target: nat, ssa: string, t: Trace)
    requires l in t.at
    ensures var b := [Label(l)] + Closed(code, exits, target);
            t.at <= Follow(b, S(ssa), t).at &&
            (!exits && Passes(code, ssa) ==> target in Follow(b, S(ssa), t).at) &&
            (Breaks(code, ssa) ==> Hits(b, S(ssa), t))
  {
    var body := Closed(code, exits, target);
    var b := [Label(l)] + body;
    var u := Trace(true, t.at);
    assert b[1..] == body;
    FollowKeeps(b, S(ssa), t);
    FollowMore(code, S(ssa), START, u);
    if !exits {
      FollowAppend(code, [Br(target)], S(ssa), u);
      assert [Br(target)][1..] == [];
    }
  }

  /** Two branches behind a test. */
  lemma {:induction false} IfPasses(q: seq<Instr>, tc: seq<Instr>, tx: bool, fc: seq<Instr>, fx: bool, lbl: nat,
          e: seq<Instr>, ssa: string)
    requires {lbl, lbl + 1} <= Follow(q, S(ssa), START).at && e == if tx && fx then [] else [Label(lbl + 2)]
    ensures var code := q + ([Label(lbl)] + Closed(tc, tx, lbl + 2)) + ([Label(lbl + 1)] + Closed(fc, fx, lbl + 2)) + e;
            ((!tx && Passes(tc, ssa)) || (!fx && Passes(fc, ssa)) ==> Passes(code, ssa)) &&
            (Breaks(q, ssa) || Breaks(tc, ssa) || Breaks(fc, ssa) ==> Breaks(code, ssa))
  {
    hide Passes, Breaks, Closed, Follow, Hits;
    var tb, fb := [Label(lbl)] + Closed(tc, tx, lbl + 2), [Label(lbl + 1)] + Closed(fc, fx, lbl + 2);
    var t := Follow(q, S(ssa), START);
    var u := Follow(tb, S(ssa), t);
    FollowAppend(q, tb, S(ssa), START);
    BranchPasses(tc, tx, lbl, lbl + 2, ssa, t);
    FollowAppend(q + tb, fb, S(ssa), START);
    BranchPasses(fc, fx, lbl + 1, lbl + 2, ssa, u);
    FollowAppend(q + tb + fb, e, S(ssa), START);
    LandingPasses(lbl + 2, S(ssa), Follow(fb, S(ssa), u));
    PassesMeans(q + tb + fb + e, ssa);
    PassesMeans(q, ssa);
  }

  lemma {:induction false} PassesMeans(code: seq<Instr>, ssa: string)
    ensures Passes(code, ssa) <==> Follow(code, S(ssa), START).here
    ensures Breaks(code, ssa) <==> Hits(code, S(ssa), START)
  {
  }

  lemma {:induction false} LandingPasses(l: nat, nm: Name, t: Trace)
    ensures l in t.at ==> Follow([Label(l)], nm, t).here
  {
    assert [Label(l)][1..] == [];
  }

  /** The body of a loop behind its test. */
  lemma {:induction false} WhilePasses(q: seq<Instr>, bc: seq<Instr>, bx: bool, lbl: nat, ssa: string)
    requires {lbl + 1, lbl + 2} <= Follow(q, S(ssa), START).at
    ensures var code := [Br(lbl), Label(lbl)] + q + ([Label(lbl + 1)] + Closed(bc, bx, lbl)) + [Label(lbl + 2)];
            Passes(code, ssa) && (Breaks(q, ssa) || Breaks(bc, ssa) ==> Breaks(code, ssa))
  {
    hide Passes, Breaks, Closed, Follow, Hits;
    var h, bb := [Br(lbl), Label(lbl)], [Label(lbl + 1)] + Closed(bc, bx, lbl);
    var t0 := Follow(h, S(ssa), START);
    LoopStartPasses(lbl, S(ssa));
    var t := Follow(q, S(ssa), t0);
    FollowMore(q, S(ssa), START, t0);
    FollowAppend(h, q, S(ssa), START);
    FollowAppend(h + q, bb, S(ssa), START);
    BranchPasses(bc, bx, lbl + 1, lbl, ssa, t);
    FollowAppend(h + q + bb, [Label(lbl + 2)], S(ssa), START);
    LandingPasses(lbl + 2, S(ssa), Follow(bb, S(ssa), t));
    PassesMeans(h + q + bb + [Label(lbl + 2)], ssa);
    PassesMeans(q, ssa);
  }

  lemma {:induction false} LoopStartPasses(l: nat, nm: Name)
    ensures Follow([Br(l), Label(l)], nm, START) == Trace(true, {l})
  {
    assert [Br(l)] + [Label(l)] == [Br(l), Label(l)] && [Br(l)][1..] == [] && [Label(l)][1..] == [];
    FollowAppend([Br(l)], [Label(l)], nm, START);
    assert Follow([Br(l)], nm, START) == Trace(false, {l});
  }

  /** The code of a `let` before its nested statements. */
  function LetHead(s: W.Stmt, sc: W.Scope, sigs: W.Sigs, temp: nat): GenE
    requires s.Let?
  {
    var g := GenExpr(s.e, W.Plain(sc), sigs, temp);
    var i := GenInit(g, s.ty);
    var ssa := SsaName(s.x, |sc|);
    GenE(g.code + [Alloca(ssa, s.ty)] + i.code + [StoreSlot(s.ty, i.v.op, ssa)], i.v, i.temp, g.fatal)
  }

  lemma {:induction false} LetParts(s: W.Stmt, sc: W.Scope, sigs: W.Sigs, ret: TypeRef, temp: nat, lbl: nat)
    requires s.Let?
    ensures var h := LetHead(s, sc, sigs, temp);
            var r := GenList(s.rest, W.Plain(sc + [W.Seen(Entry(s.x, s.ty), true)]), sigs, ret, h.temp, lbl);
            var g := GenStmt(s, W.Plain(sc), sigs, ret, temp, lbl);
            g.code == h.code + r.code && g.exits == r.exits && g.last == r.last && g.fatal == (h.fatal || r.fatal)
  {
    hide GenExpr, GenList, GenInit, SsaName, W.Plain;
    PlainPush(sc, Entry(s.x, s.ty));
    LetSlot(sc, Entry(s.x, s.ty));
  }

  lemma {:induction false} InitMentions(g: GenE, ty: TypeRef, ssa: string)
    ensures var i := GenInit(g, ty); Calm(i.code, ssa) && NamesIn(g.v.op) <= AllUses(i.code) + NamesIn(i.v.op)
  {
    var i := GenInit(g, ty);
    if i.code != [] {
      CalmOne(i.code[0], ssa);
    }
  }

  lemma {:induction false} LetHeadCalm(s: W.Stmt, sc: W.Scope, sigs: W.Sigs, temp: nat, ssa: string)
    requires s.Let? && ssa != SsaName(s.x, |sc|)
    ensures Calm(LetHead(s, sc, sigs, temp).code, ssa)
    ensures var g := GenExpr(s.e, W.Plain(sc), sigs, temp);
            AllUses(g.code) + NamesIn(g.v.op) <= AllUses(LetHead(s, sc, sigs, temp).code)
  {
    hide GenExpr, SsaName, W.Plain, Find, GenInit, Calm, AllUses, Mentions, NamesIn;
    var g := GenExpr(s.e, W.Plain(sc), sigs, temp);
    var i := GenInit(g, s.ty);
    var a, st := Alloca(SsaName(s.x, |sc|), s.ty), StoreSlot(s.ty, i.v.op, SsaName(s.x, |sc|));
    ExprMentions(s.e, W.Plain(sc), sigs, temp, ssa);
    CalmOne(a, ssa);
    CalmOne(st, ssa);
    InitMentions(g, s.ty, ssa);
    CalmJoin(g.code, [a], ssa);
    CalmJoin(g.code + [a], i.code, ssa);
    CalmJoin(g.code + [a] + i.code, [st], ssa);
    AllUsesAppend(g.code, [a]);
    AllUsesAppend(g.code + [a], i.code);
    AllUsesAppend(g.code + [a] + i.code, [st]);
  }

  /** Where a statement ends, some way through its code has passed by every alloca that is
      not live there. */
  lemma {:induction false} StmtPasses(s: W.Stmt, sc: W.Scope, sigs: W.Sigs, ret: TypeRef, temp: nat, lbl: nat,
          ssa: string)
    requires UsageOf(s, sc, ret).Some? && !HasSlot(ssa, UsageOf(s, sc, ret).value.sc)
    ensures var g := GenStmt(s, W.Plain(sc), sigs, ret, temp, lbl); g.exits || Passes(g.code, ssa)
    decreases s, 1
  {
    hide UsesOk, HasSlot, GenExpr, Passes, Ensured, Calm, W.Plain, After, Extends, W.Close, SsaOf, TypeOf;
    var env := W.Plain(sc);
    var g := GenStmt(s, env, sigs, ret, temp, lbl);
    match s
    case Nop => StraightPasses(g.code, ssa);
    case Return(_) =>
    case StoreTo(ty, p, e) =>
      var q := GenExpr(p, env, sigs, temp);
      var v := Ensured(GenExpr(e, env, sigs, q.temp), ty);
      ExprCalm(p, env, sigs, temp, ssa);
      EnsuredCalm(e, ty, env, sigs, q.temp, ssa);
      CalmJoin(q.code, v.code, ssa);
      StorePasses(q.code + v.code, Store(ty, v.v.op, q.v.ty, q.v.op), ssa);
    case Let(x, ty, e, rest) =>
      var sc' := sc + [W.Seen(Entry(x, ty), true)];
      ListUsageExtends(rest, sc', ret);
      OuterSlots(sc', UsageOf(s, sc, ret).value.sc, ssa);
      NewSlot(sc, Entry(x, ty), ssa);
      var h := LetHead(s, sc, sigs, temp);
      LetParts(s, sc, sigs, ret, temp, lbl);
      LetHeadCalm(s, sc, sigs, temp, ssa);
      StraightPasses(h.code, ssa);
      ListPasses(rest, sc', sigs, ret, h.temp, lbl, ssa);
      PassesOn(h.code, GenList(rest, W.Plain(sc'), sigs, ret, h.temp, lbl).code, ssa);
    case Set(x, e) =>
      var v := GenExpr(e, env, sigs, temp);
      ExprCalm(e, env, sigs, temp, ssa);
      StorePasses(v.code, StoreSlot(if TypeOf(env, x).None? then I32 else TypeOf(env, x).value, v.v.op, SsaOf(env, x)),
                  ssa);
    case Do(ss) => ListPasses(ss, sc, sigs, ret, temp, lbl, ssa);
    case If(c, thn, els) => IfEscapes(s, sc, sigs, ret, temp, lbl, ssa);
    case While(c, body) =>
      var q := GenTest(c, env, sigs, temp, lbl + 1, lbl + 2);
      var b := GenStmt(body, env, sigs, ret, q.temp, lbl + 3);
      TestOpens(c, env, sigs, temp, lbl + 1, lbl + 2, ssa);
      WhilePasses(q.code, b.code, b.exits, lbl, ssa);
    case Eval(e) =>
      ExprCalm(e, env, sigs, temp, ssa);
      StraightPasses(g.code, ssa);
  }

  lemma {:induction false} ExprCalm(e: W.Expr, env: seq<Entry>, sigs: W.Sigs, temp: nat, ssa: string)
    ensures Calm(GenExpr(e, env, sigs, temp).code, ssa)
  {
    ExprMentions(e, env, sigs, temp, ssa);
  }

  lemma {:induction false} EnsuredCalm(e: W.Expr, ty: TypeRef, env: seq<Entry>, sigs: W.Sigs, temp: nat, ssa: string)
    ensures Calm(Ensured(GenExpr(e, env, sigs, temp), ty).code, ssa)
  {
    ExprMentions(e, env, sigs, temp, ssa);
    EnsuredMentions(GenExpr(e, env, sigs, temp), ty, Vars(e), env, ssa);
  }

  lemma {:induction false} StraightPasses(code: seq<Instr>, ssa: string)
    requires Calm(code, ssa) || code == []
    ensures Passes(code, ssa)
  {
    CalmPasses(code, ssa);
  }

  lemma {:induction false} StorePasses(code: seq<Instr>, i: Instr, ssa: string)
    requires Calm(code, ssa) && i.Store?
    ensures Passes(code + [i], ssa)
  {
    CalmOne(i, ssa);
    CalmJoin(code, [i], ssa);
    StraightPasses(code + [i], ssa);
  }

  lemma {:induction false} IfEscapes(s: W.Stmt, sc: W.Scope, sigs: W.Sigs, ret: TypeRef, temp: nat, lbl: nat,
          ssa: string)
    requires s.If? && UsageOf(s, sc, ret).Some? && !HasSlot(ssa, UsageOf(s, sc, ret).value.sc)
    ensures var g := GenStmt(s, W.Plain(sc), sigs, ret, temp, lbl); g.exits || Passes(g.code, ssa)
    decreases s, 0
  {
    hide UsesOk, HasSlot, GenExpr, GenTest, GenStmt, Passes, Breaks, Closed, W.Plain, After, Extends, W.Close;
    var env := W.Plain(sc);
    var q := GenTest(s.cond, env, sigs, temp, lbl, lbl + 1);
    IfCode(s, env, sigs, ret, temp, lbl);
    var t := GenStmt(s.thn, env, sigs, ret, q.temp, lbl + 3);
    var f := GenStmt(s.els, t.env, sigs, ret, t.temp, t.lbl);
    StmtShape(s.thn, env, sigs, ret, q.temp, lbl + 3);
    StmtShape(s.els, t.env, sigs, ret, t.temp, t.lbl);
    var u1 := UsageOf(s.thn, sc, ret).value;
    var sc1 := W.Close(u1.sc, |sc|);
    UsageTracksGen(s.thn, sc, sigs, ret, q.temp, lbl + 3);
    PlainClose(u1.sc, |sc|);
    UsageExtends(s.thn, sc, ret);
    UsageExtends(s.els, sc1, ret);
    if !(t.exits && f.exits) {
      var u2 := UsageOf(s.els, sc1, ret).value;
      AfterSlots(sc, u1.sc, u2.sc, t.exits, f.exits, ssa);
      if !HasSlot(ssa, u1.sc) {
        StmtPasses(s.thn, sc, sigs, ret, q.temp, lbl + 3, ssa);
      }
      if !HasSlot(ssa, u2.sc) {
        StmtPasses(s.els, sc1, sigs, ret, t.temp, t.lbl, ssa);
      }
      TestOpens(s.cond, env, sigs, temp, lbl, lbl + 1, ssa);
      IfPasses(q.code, t.code, t.exits, f.code, f.exits, lbl, [Label(lbl + 2)], ssa);
    }
  }

  lemma {:induction false} ListPasses(ss: seq<W.Stmt>, sc: W.Scope, sigs: W.Sigs, ret: TypeRef, temp: nat, lbl: nat,
          ssa: string)
    requires UsageOfList(ss, sc, ret).Some? && !HasSlot(ssa, UsageOfList(ss, sc, ret).value.sc)
    ensures var g := GenList(ss, W.Plain(sc), sigs, ret, temp, lbl); g.exits || Passes(g.code, ssa)
    decreases ss, 0
  {
    hide HasSlot, GenStmt, Passes, UsageOf, W.Plain, Extends;
    if ss == [] {
      StraightPasses([], ssa);
    } else {
      var h := GenStmt(ss[0], W.Plain(sc), sigs, ret, temp, lbl);
      StmtShape(ss[0], W.Plain(sc), sigs, ret, temp, lbl);
      if !h.exits {
        var u := UsageOf(ss[0], sc, ret).value;
        UsageTracksGen(ss[0], sc, sigs, ret, temp, lbl);
        ListUsageExtends(ss[1..], u.sc, ret);
        OuterSlots(u.sc, UsageOfList(ss, sc, ret).value.sc, ssa);
        StmtPasses(ss[0], sc, sigs, ret, temp, lbl, ssa);
        ListPasses(ss[1..], u.sc, sigs, ret, h.temp, h.lbl, ssa);
        PassesOn(h.code, GenList(ss[1..], h.env, sigs, ret, h.temp, h.lbl).code, ssa);
      }
    }
  }

  /** A statement that does not pass the check uses an alloca that is not live at its start,
      and some way to that use passes it by. */
  lemma {:induction false} StmtBreaks(s: W.Stmt, sc: W.Scope, sigs: W.Sigs, ret: TypeRef, temp: nat, lbl: nat)
    returns (ssa: string)
    requires UsageOf(s, sc, ret).None? && !GenStmt(s, W.Plain(sc), sigs, ret, temp, lbl).fatal
    ensures !HasSlot(ssa, sc) && Breaks(GenStmt(s, W.Plain(sc), sigs, ret, temp, lbl).code, ssa)
    decreases s, 1
  {
    hide UsesOk, HasSlot, DeadSlot, GenExpr, Breaks, Passes, Ensured, Calm, W.Plain, W.Close, SsaOf, TypeOf, Follow;
    var env := W.Plain(sc);
    var g := GenStmt(s, env, sigs, ret, temp, lbl);
    match s
    case Return(e) =>
      var v := GenExpr(e, env, sigs, temp);
      ssa := DeadVar(e, sc, sigs, temp);
      CalmBreaks(v.code, if ret.Void? then RetVoid else Ret(ret, v.v.op), ssa);
    case StoreTo(ty, p, e) => ssa := StoreBreaks(s, sc, sigs, ret, temp, lbl);
    case Let(_, _, _, _) => ssa := LetBreaks(s, sc, sigs, ret, temp, lbl);
    case Set(x, e) =>
      var v := GenExpr(e, env, sigs, temp);
      var i := StoreSlot(if TypeOf(env, x).None? then I32 else TypeOf(env, x).value, v.v.op, SsaOf(env, x));
      if UsesOk(e, sc) {
        ssa := SsaOf(env, x);
      } else {
        ssa := DeadVar(e, sc, sigs, temp);
      }
      ExprCalm(e, env, sigs, temp, ssa);
      CalmBreaks(v.code, i, ssa);
    case Do(ss) => ssa := ListBreaks(ss, sc, sigs, ret, temp, lbl);
    case If(_, _, _) => ssa := IfBreaks(s, sc, sigs, ret, temp, lbl);
    case While(c, body) =>
      var q := GenTest(c, env, sigs, temp, lbl + 1, lbl + 2);
      var b := GenStmt(body, env, sigs, ret, q.temp, lbl + 3);
      if UsesOk(c, sc) {
        ssa := StmtBreaks(body, sc, sigs, ret, q.temp, lbl + 3);
      } else {
        ssa := TestBreaks(c, sc, sigs, temp, lbl + 1, lbl + 2);
      }
      TestOpens(c, env, sigs, temp, lbl + 1, lbl + 2, ssa);
      WhilePasses(q.code, b.code, b.exits, lbl, ssa);
    case Eval(e) =>
      ssa := DeadVar(e, sc, sigs, temp);
      CalmPasses(g.code, ssa);
  }

  lemma {:induction false} StoreBreaks(s: W.Stmt, sc: W.Scope, sigs: W.Sigs, ret: TypeRef, temp: nat, lbl: nat)
    returns (ssa: string)
    requires s.StoreTo? && UsageOf(s, sc, ret).None? && !GenStmt(s, W.Plain(sc), sigs, ret, temp, lbl).fatal
    ensures !HasSlot(ssa, sc) && Breaks(GenStmt(s, W.Plain(sc), sigs, ret, temp, lbl).code, ssa)
  {
    hide UsesOk, HasSlot, DeadSlot, GenExpr, Breaks, Ensured, Calm, W.Plain;
    var q := GenExpr(s.p, W.Plain(sc), sigs, temp);
    var v := Ensured(GenExpr(s.e, W.Plain(sc), sigs, q.temp), s.ty);
    if UsesOk(s.p, sc) {
      ssa := EnsuredDead(s.e, s.ty, sc, sigs, q.temp);
    } else {
      ssa := DeadVar(s.p, sc, sigs, temp);
    }
    ExprCalm(s.p, W.Plain(sc), sigs, temp, ssa);
    EnsuredCalm(s.e, s.ty, W.Plain(sc), sigs, q.temp, ssa);
    CalmJoin(q.code, v.code, ssa);
    AllUsesAppend(q.code, v.code);
    CalmBreaks(q.code + v.code, Store(s.ty, v.v.op, q.v.ty, q.v.op), ssa);
  }

  lemma {:induction false} LetBreaks(s: W.Stmt, sc: W.Scope, sigs: W.Sigs, ret: TypeRef, temp: nat, lbl: nat)
    returns (ssa: string)
    requires s.Let? && UsageOf(s, sc, ret).None? && !GenStmt(s, W.Plain(sc), sigs, ret, temp, lbl).fatal
    ensures !HasSlot(ssa, sc) && Breaks(GenStmt(s, W.Plain(sc), sigs, ret, temp, lbl).code, ssa)
    decreases s, 0
  {
    hide UsesOk, HasSlot, GenExpr, Breaks, Passes, Calm, W.Plain, SsaName, UsageOfList, GenStmt, GenList;
    var sc' := sc + [W.Seen(Entry(s.x, s.ty), true)];
    var h := LetHead(s, sc, sigs, temp);
    var r := GenList(s.rest, W.Plain(sc'), sigs, ret, h.temp, lbl);
    LetParts(s, sc, sigs, ret, temp, lbl);
    if UsesOk(s.e, sc) {
      ssa := ListBreaks(s.rest, sc', sigs, ret, h.temp, lbl);
      NewSlot(sc, Entry(s.x, s.ty), ssa);
      LetHeadCalm(s, sc, sigs, temp, ssa);
      StraightPasses(h.code, ssa);
    } else {
      ssa := DeadVar(s.e, sc, sigs, temp);
      DeadIsOld(ssa, sc, s.x);
      LetHeadCalm(s, sc, sigs, temp, ssa);
      CalmPasses(h.code, ssa);
    }
    PassesOn(h.code, r.code, ssa);
  }

  lemma {:induction false} DeadIsOld(ssa: string, sc: W.Scope, x: string)
    requires DeadSlot(ssa, sc)
    ensures ssa != SsaName(x, |sc|)
  {
    hide SsaName;
    var k :| 0 <= k < |sc| && !sc[k].live && SsaName(sc[k].e.name, k) == ssa;
    if ssa == SsaName(x, |sc|) {
      SsaNamesDistinct(sc[k].e.name, k, x, |sc|);
    }
  }

  lemma {:induction false} IfBreaks(s: W.Stmt, sc: W.Scope, sigs: W.Sigs, ret: TypeRef, temp: nat, lbl: nat)
    returns (ssa: string)
    requires s.If? && UsageOf(s, sc, ret).None? && !GenStmt(s, W.Plain(sc), sigs, ret, temp, lbl).fatal
    ensures !HasSlot(ssa, sc) && Breaks(GenStmt(s, W.Plain(sc), sigs, ret, temp, lbl).code, ssa)
    decreases s, 0
  {
    hide UsesOk, HasSlot, GenExpr, GenTest, GenStmt, Passes, Breaks, Closed, W.Plain, After, Extends, W.Close;
    var env := W.Plain(sc);
    var q := GenTest(s.cond, env, sigs, temp, lbl, lbl + 1);
    IfCode(s, env, sigs, ret, temp, lbl);
    var t := GenStmt(s.thn, env, sigs, ret, q.temp, lbl + 3);
    var f := GenStmt(s.els, t.env, sigs, ret, t.temp, t.lbl);
    if !UsesOk(s.cond, sc) {
      ssa := TestBreaks(s.cond, sc, sigs, temp, lbl, lbl + 1);
    } else if UsageOf(s.thn, sc, ret).None? {
      ssa := StmtBreaks(s.thn, sc, sigs, ret, q.temp, lbl + 3);
    } else {
      var u1 := UsageOf(s.thn, sc, ret).value;
      UsageTracksGen(s.thn, sc, sigs, ret, q.temp, lbl + 3);
      PlainClose(u1.sc, |sc|);
      UsageExtends(s.thn, sc, ret);
      CloseKeeps(sc, u1.sc);
      ssa := StmtBreaks(s.els, W.Close(u1.sc, |sc|), sigs, ret, t.temp, t.lbl);
      OuterSlots(sc, W.Close(u1.sc, |sc|), ssa);
    }
    TestOpens(s.cond, env, sigs, temp, lbl, lbl + 1, ssa);
    IfPasses(q.code, t.code, t.exits, f.code, f.exits, lbl, if t.exits && f.exits then [] else [Label(lbl + 2)], ssa);
  }

  lemma {:induction false} ListBreaks(ss: seq<W.Stmt>, sc: W.Scope, sigs: W.Sigs, ret: TypeRef, temp: nat, lbl: nat)
    returns (ssa: string)
    requires UsageOfList(ss, sc, ret).None? && !GenList(ss, W.Plain(sc), sigs, ret, temp, lbl).fatal
    ensures !HasSlot(ssa, sc) && Breaks(GenList(ss, W.Plain(sc), sigs, ret, temp, lbl).code, ssa)
    decreases ss, 0
  {
    hide HasSlot, GenStmt, Passes, Breaks, UsageOf, W.Plain, Extends;
    var h := GenStmt(ss[0], W.Plain(sc), sigs, ret, temp, lbl);
    StmtShape(ss[0], W.Plain(sc), sigs, ret, temp, lbl);
    if UsageOf(ss[0], sc, ret).None? {
      ssa := StmtBreaks(ss[0], sc, sigs, ret, temp, lbl);
    } else {
      var u := UsageOf(ss[0], sc, ret).value;
      UsageTracksGen(ss[0], sc, sigs, ret, temp, lbl);
      ssa := ListBreaks(ss[1..], u.sc, sigs, ret, h.temp, h.lbl);
      UsageExtends(ss[0], sc, ret);
      OuterSlots(sc, u.sc, ssa);
      StmtPasses(ss[0], sc, sigs, ret, temp, lbl, ssa);
    }
    if !h.exits {
      PassesOn(h.code, GenList(ss[1..], h.env, sigs, ret, h.temp, h.lbl).code, ssa);
    }
  }

  // ---------- the implicit return ----------

  /** The value left is the address of a declaration that is not live. */
  ghost predicate Stale(last: Option<GVal>, sc: W.Scope) {
    last.Some? && last.value.op.Slot? && DeadSlot(last.value.op.slot, sc)
  }

  lemma {:induction false} StaleOn(last: Option<GVal>, sc: W.Scope, full: W.Scope)
    requires Stale(last, sc) && Extends(sc, full)
    ensures Stale(last, full)
  {
    hide SsaName;
    var k :| 0 <= k < |sc| && !sc[k].live && SsaName(sc[k].e.name, k) == last.value.op.slot;
    assert full[k] == full[..|sc|][k];
  }

  lemma {:induction false} StmtStale(s: W.Stmt, sc: W.Scope, sigs: W.Sigs, ret: TypeRef, temp: nat, lbl: nat)
    requires UsageOf(s, sc, ret).Some? && !GenStmt(s, W.Plain(sc), sigs, ret, temp, lbl).fatal
    ensures var g := GenStmt(s, W.Plain(sc), sigs, ret, temp, lbl);
            var u := UsageOf(s, sc, ret).value;
            !g.exits && u.value == Some(false) ==> Stale(g.last, u.sc)
    decreases s, 1
  {
    hide UsesOk, HasSlot, GenExpr, W.Plain, Stale, Calm;
    match s
    case Let(x, ty, _, rest) =>
      var sc' := sc + [W.Seen(Entry(x, ty), true)];
      LetParts(s, sc, sigs, ret, temp, lbl);
      ListStale(rest, sc', sigs, ret, LetHead(s, sc, sigs, temp).temp, lbl);
    case Do(ss) => ListStale(ss, sc, sigs, ret, temp, lbl);
    case Eval(e) =>
      if !UsesOk(e, sc) {
        var ssa := DeadVar(e, sc, sigs, temp);
        StaleMeans(ssa, Some(GenExpr(e, W.Plain(sc), sigs, temp).v), sc);
      }
    case _ =>
  }

  lemma {:induction false} StaleMeans(ssa: string, last: Option<GVal>, sc: W.Scope)
    requires last.Some? && last.value.op == Slot(ssa) && DeadSlot(ssa, sc)
    ensures Stale(last, sc)
  {
  }

  lemma {:induction false} ListStale(ss: seq<W.Stmt>, sc: W.Scope, sigs: W.Sigs, ret: TypeRef, temp: nat, lbl: nat)
    requires UsageOfList(ss, sc, ret).Some? && !GenList(ss, W.Plain(sc), sigs, ret, temp, lbl).fatal
    ensures var g := GenList(ss, W.Plain(sc), sigs, ret, temp, lbl);
            var u := UsageOfList(ss, sc, ret).value;
            !g.exits && u.value == Some(false) ==> Stale(g.last, u.sc)
    decreases ss, 0
  {
    hide GenStmt, UsageOf, W.Plain, Extends, Stale;
    if ss != [] {
      var h := GenStmt(ss[0], W.Plain(sc), sigs, ret, temp, lbl);
      StmtShape(ss[0], W.Plain(sc), sigs, ret, temp, lbl);
      if !h.exits {
        var u := UsageOf(ss[0], sc, ret).value;
        UsageTracksGen(ss[0], sc, sigs, ret, temp, lbl);
        StmtStale(ss[0], sc, sigs, ret, temp, lbl);
        ListStale(ss[1..], u.sc, sigs, ret, h.temp, h.lbl);
        ListUsageTracksGen(ss[1..], u.sc, sigs, ret, h.temp, h.lbl);
        ListUsageExtends(ss[1..], u.sc, ret);
        if u.value == Some(false) {
          StaleOn(h.last, u.sc, UsageOfList(ss, sc, ret).value.sc);
        }
      }
    }
  }

  // ---------- functions ----------

  lemma {:induction false} HeaderPasses(ps: seq<Entry>, k: nat, ssa: string)
    requires k <= |ps| && !HasSlot(ssa, Incoming(ps))
    ensures Calm(GenHeader(ps[..k], ps), ssa)
  {
    hide SsaName, Calm;
    if k == 0 {
      CalmNone(ssa);
    } else {
      HeaderPasses(ps, k - 1, ssa);
      assert ps[..k][..k - 1] == ps[..k - 1];
      var p := ps[k - 1];
      FindIsLast(ps, p.name);
      var j := Find(ps, p.name);
      assert Incoming(ps)[j] == W.Seen(ps[j], true);
      PairMentions(Alloca(SsaOf(ps, p.name), p.ty), StoreSlot(p.ty, Param(SsaOf(ps, p.name)), SsaOf(ps, p.name)), ssa);
      CalmJoin(GenHeader(ps[..k - 1], ps),
               [Alloca(SsaOf(ps, p.name), p.ty), StoreSlot(p.ty, Param(SsaOf(ps, p.name)), SsaOf(ps, p.name))], ssa);
    }
  }

  lemma {:induction false} CalmNone(ssa: string)
    ensures Calm([], ssa)
  {
  }

  lemma {:induction false} EndBreaks(last: Option<GVal>, ret: TypeRef, temp: nat, ssa: string)
    requires !ret.Void? && last.Some? && last.value.op == Slot(ssa) && !GenEnd(last, ret, temp).fatal
    ensures Breaks(GenEnd(last, ret, temp).code, ssa)
  {
    hide Ensure, Breaks, Calm;
    var c := Ensure(last.value, ret, temp);
    EnsureMentions(last.value, ret, temp, ssa);
    CalmBreaks(c.code, Ret(ret, c.v.op), ssa);
  }

  /** Code after a header that starts a way to a use. */
  lemma {:induction false} HeaderThenBreaks(ps: seq<Entry>, code: seq<Instr>, ssa: string)
    requires !HasSlot(ssa, Incoming(ps)) && Breaks(code, ssa)
    ensures Breaks(GenHeader(ps, ps) + code, ssa)
  {
    hide HasSlot, Breaks, Passes;
    assert ps[..|ps|] == ps;
    HeaderPasses(ps, |ps|, ssa);
    StraightPasses(GenHeader(ps, ps), ssa);
    PassesOn(GenHeader(ps, ps), code, ssa);
  }

  lemma {:induction false} UnscopedBreaks(fn: W.FnDef, sigs: W.Sigs, temp: nat, lbl: nat) returns (ssa: string)
    requires !ScopedFn(fn) && !GenFn(fn, sigs, temp, lbl).fatal
    ensures Breaks(GenFn(fn, sigs, temp, lbl).fn.code, ssa)
  {
    hide GenList, GenHeader, GenEnd, UsageOfList, HasSlot, DeadSlot, W.Plain, Incoming, Breaks, Passes, Extends;
    var sc := Incoming(fn.params);
    PlainIncoming(fn.params);
    var h := GenHeader(fn.params, fn.params);
    var b := GenList(fn.body, fn.params, sigs, fn.ret, temp, lbl);
    var e := if b.exits then GenE([], ZERO, b.temp, false) else GenEnd(b.last, fn.ret, b.temp);
    ListShape(fn.body, fn.params, sigs, fn.ret, temp, lbl);
    if UsageOfList(fn.body, sc, fn.ret).None? {
      ssa := ListBreaks(fn.body, sc, sigs, fn.ret, temp, lbl);
    } else {
      var u := UsageOfList(fn.body, sc, fn.ret).value;
      ListStale(fn.body, sc, sigs, fn.ret, temp, lbl);
      ssa := b.last.value.op.slot;
      DeadIsNotLive(ssa, u.sc);
      ListUsageExtends(fn.body, sc, fn.ret);
      OuterSlots(sc, u.sc, ssa);
      ListPasses(fn.body, sc, sigs, fn.ret, temp, lbl, ssa);
      EndBreaks(b.last, fn.ret, b.temp, ssa);
    }
    PassesOn(b.code, e.code, ssa);
    HeaderThenBreaks(fn.params, b.code + e.code, ssa);
    assert h + (b.code + e.code) == h + b.code + e.code;
  }

  /** Exactly which functions have well-formed output: whenever stage0 emits code, its
      definitions dominate its uses if and only if the function passes the check. */
  lemma {:induction false} DominatesExactly(fn: W.FnDef, sigs: W.Sigs, temp: nat, lbl: nat)
    requires !GenFn(fn, sigs, temp, lbl).fatal
    ensures Dominated(GenFn(fn, sigs, temp, lbl).fn.code) <==> ScopedFn(fn)
  {
    hide GenFn, ScopedFn, Dominated, Hits, LabelDefs;
    if ScopedFn(fn) {
      ScopedDominates(fn, sigs, temp, lbl);
    } else {
      var ssa := UnscopedBreaks(fn, sigs, temp, lbl);
      FnShape(fn, sigs, temp, lbl);
      HitsBreak(GenFn(fn, sigs, temp, lbl).fn.code, S(ssa));
    }
  }
}
