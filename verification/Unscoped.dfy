/** Why stage0 needs the scoping rules: its environment is flat, so a name declared in a
    branch stays visible behind it, where its alloca may be missing. */
module Unscoped {
  import opened Wrappers
  import opened Types
  import opened Env
  import opened Gen
  import opened Scoping
  import opened Usability
  import opened Dominance
  import Escapes
  import Values
  import W = Weave

  /** A variable declared in one branch and used behind it; `els` is the other branch. */
  function Leaky(x: string, els: W.Stmt): W.FnDef {
    W.FnDef("leaky", [], I32, [W.If(W.Const(0), W.Let(x, I32, W.Const(5), []), els), W.Return(W.Var(x))])
  }

  /** The check of the use behind the `if-stmt`, of which `live` says if it finds an alloca. */
  lemma {:induction false} LeakyUse(x: string, live: bool)
    ensures var sc := [W.Seen(Entry(x, I32), live)];
            W.Plain(sc) == [Entry(x, I32)] && (UsesOk(W.Var(x), sc) <==> live)
  {
    var sc := [W.Seen(Entry(x, I32), live)];
    assert W.Plain(sc) == [Entry(x, I32)];
    assert Find([Entry(x, I32)], x) == 0;
    assert x in Vars(W.Var(x));
  }

  lemma {:induction false} LeakyBranch(x: string)
    ensures UsageOf(W.Let(x, I32, W.Const(5), []), [], I32) == Some(Usage([W.Seen(Entry(x, I32), true)], None))
  {
    assert Vars(W.Const(5)) == {};
    assert [] + [W.Seen(Entry(x, I32), true)] == [W.Seen(Entry(x, I32), true)];
    assert UsageOfList([], [W.Seen(Entry(x, I32), true)], I32) == Some(Usage([W.Seen(Entry(x, I32), true)], None));
  }

  /** The use is sound exactly if the other branch leaves the function. */
  lemma {:induction false} LeakyScoped(x: string, els: W.Stmt)
    requires els == W.Nop || els == W.Return(W.Const(7))
    ensures ScopedFn(Leaky(x, els)) <==> els.Return?
  {
    hide UsageOf, UsesOk;
    var fn := Leaky(x, els);
    LetStays(x);
    LeafUsage(els, []);
    var sc, shut := [W.Seen(Entry(x, I32), true)], [W.Seen(Entry(x, I32), false)];
    LeakyBranch(x);
    LeakyJoin(x, els);
    LeakyUse(x, els.Return?);
    var after := if els.Return? then sc else shut;
    assert UsageOf(W.Return(W.Var(x)), after, I32).Some? <==> els.Return? by {
      ReturnUsage(W.Var(x), after);
    }
    assert fn.body[1..] == [W.Return(W.Var(x))] && fn.body[1..][1..] == [];
    assert Incoming(fn.params) == [];
    ReturnLast(W.Var(x), after);
  }

  lemma {:induction false} ReturnLast(e: W.Expr, sc: W.Scope)
    ensures UsageOfList([W.Return(e)], sc, I32).Some? <==> UsageOf(W.Return(e), sc, I32).Some?
    ensures W.ListExits([W.Return(e)])
  {
  }

  lemma {:induction false} ReturnUsage(e: W.Expr, sc: W.Scope)
    ensures UsageOf(W.Return(e), sc, I32).Some? <==> UsesOk(e, sc)
  {
  }

  lemma {:induction false} IfUsage(s: W.Stmt, sc: W.Scope, t: W.Scope, f: W.Scope)
    requires s.If? && UsesOk(s.cond, sc) && UsageOf(s.thn, sc, I32) == Some(Usage(t, None))
    requires UsageOf(s.els, W.Close(t, |sc|), I32) == Some(Usage(f, None))
    ensures |t| <= |f| &&
            UsageOf(s, sc, I32) == Some(Usage(After(t, f, |sc|, W.Exits(s.thn), W.Exits(s.els)), None))
  {
    hide UsesOk, After;
  }

  lemma {:induction false} LeafUsage(els: W.Stmt, sc: W.Scope)
    requires els == W.Nop || els == W.Return(W.Const(7))
    ensures UsageOf(els, sc, I32) == Some(Usage(sc, None)) && (W.Exits(els) <==> els.Return?)
  {
    assert Vars(W.Const(7)) == {};
  }

  lemma {:induction false} LeakyJoin(x: string, els: W.Stmt)
    requires els == W.Nop || els == W.Return(W.Const(7))
    ensures UsageOf(Leaky(x, els).body[0], [], I32) == Some(Usage([W.Seen(Entry(x, I32), els.Return?)], None))
  {
    hide UsageOf, W.Exits;
    var sc, shut := [W.Seen(Entry(x, I32), true)], [W.Seen(Entry(x, I32), false)];
    LeakyBranch(x);
    LeafUsage(els, shut);
    assert W.Close(sc, 0) == shut && W.Close(sc + shut[1..], 1) == sc && W.Close(shut, 0) == shut;
    assert Vars(W.Const(0)) == {};
    LetStays(x);
    IfUsage(Leaky(x, els).body[0], [], sc, shut);
  }

  lemma {:induction false} LetStays(x: string)
    ensures !W.Exits(W.Let(x, I32, W.Const(5), []))
  {
  }

  lemma {:induction false} LeakyCompiles(x: string, els: W.Stmt, sigs: W.Sigs, temp: nat, lbl: nat)
    requires els == W.Nop || els == W.Return(W.Const(7))
    ensures !GenFn(Leaky(x, els), sigs, temp, lbl).fatal
  {
    hide SsaName, GenHeader;
    var fn := Leaky(x, els);
    var c := fn.body[0];
    IfCode(c, [], sigs, I32, temp, lbl);
    var q := GenTest(W.Const(0), [], sigs, temp, lbl, lbl + 1);
    assert GenExpr(W.Const(0), [], sigs, temp) == GenE([], ZERO, temp, false);
    var t := GenStmt(c.thn, [], sigs, I32, q.temp, lbl + 3);
    LeakyThen(x, sigs, q.temp, lbl + 3);
    var h := GenStmt(c, [], sigs, I32, temp, lbl);
    assert !h.fatal && !h.exits;
    assert fn.body[1..] == [W.Return(W.Var(x))];
    assert !GenExpr(W.Var(x), h.env, sigs, h.temp).fatal;
    var r := GenStmt(W.Return(W.Var(x)), h.env, sigs, I32, h.temp, h.lbl);
    assert r.exits && !r.fatal;
    assert GenList(fn.body[1..], h.env, sigs, I32, h.temp, h.lbl) == r.(last := None);
  }

  lemma {:induction false} LeakyThen(x: string, sigs: W.Sigs, temp: nat, lbl: nat)
    ensures var t := GenStmt(W.Let(x, I32, W.Const(5), []), [], sigs, I32, temp, lbl); !t.fatal && !t.exits
  {
    hide SsaName;
    assert !GenExpr(W.Const(5), [], sigs, temp).fatal;
  }

  /** In the source, the branch is not taken and the name is not in scope behind it. */
  lemma {:induction false} LeakyRuns(x: string, p: W.Program, mem: Values.Memory, fuel: nat)
    ensures W.RunFn(p, Leaky(x, W.Nop), [], mem, fuel) == W.Ok(W.VM(Values.Int(0), mem))
  {
    var fn := Leaky(x, W.Nop);
    assert W.ParamBindings([], |mem|) == [] && mem + [] == mem;
    assert W.ExecStmt(p, W.Nop, [], mem, fuel) == W.Ok(W.Next(None, [], mem));
    var first := W.ExecStmt(p, fn.body[0], [], mem, fuel);
    assert W.EvalExpr(p, W.Const(0), [], mem, fuel) == W.Ok(W.VM(Values.Int(0), mem));
    assert first == W.Ok(W.Next(None, [], mem));
    assert W.EvalExpr(p, W.Var(x), [], mem, fuel) == W.Ok(W.VM(Values.Int(0), mem));
    assert fn.body[1..][0] == W.Return(W.Var(x));
    assert W.ExecList(p, fn.body[1..], [], mem, fuel) == W.Ok(W.Returned(Values.Int(0), mem));
  }

  /** For this function, which the source semantics runs to the value 0, some path uses an
      alloca that it misses; with a branch that leaves the function instead, none does. */
  lemma {:induction false} LeakyBreaksDominance(x: string, sigs: W.Sigs, temp: nat, lbl: nat, p: W.Program,
          mem: Values.Memory, fuel: nat)
    ensures W.RunFn(p, Leaky(x, W.Nop), [], mem, fuel) == W.Ok(W.VM(Values.Int(0), mem))
    ensures !Dominated(GenFn(Leaky(x, W.Nop), sigs, temp, lbl).fn.code)
    ensures Dominated(GenFn(Leaky(x, W.Return(W.Const(7))), sigs, temp, lbl).fn.code)
  {
    hide W.RunFn, GenFn, ScopedFn, Dominated, Leaky;
    LeakyRuns(x, p, mem, fuel);
    LeakyScoped(x, W.Nop);
    LeakyCompiles(x, W.Nop, sigs, temp, lbl);
    Escapes.DominatesExactly(Leaky(x, W.Nop), sigs, temp, lbl);
    LeakyScoped(x, W.Return(W.Const(7)));
    LeakyCompiles(x, W.Return(W.Const(7)), sigs, temp, lbl);
    Escapes.DominatesExactly(Leaky(x, W.Return(W.Const(7))), sigs, temp, lbl);
  }
}
