/** How the variables of a running source program sit in the allocas of the emitted code. */
module Scoping {
  import opened Wrappers
  import opened Types
  import opened Values
  import opened Env
  import opened Gen
  import opened Blocks
  import W = Weave

  /** Every open declaration of the generator is, in order, a variable in scope, and its
      alloca holds that variable's address. */
  ghost predicate Rel(sc: W.Scope, b: W.Bindings, slots: map<string, nat>) {
    if sc == [] then b == []
    else
      var k := |sc| - 1;
      if sc[k].live then
        b != [] && Hosts(sc[k].e, k, b[|b| - 1], slots) && Rel(sc[..k], b[..|b| - 1], slots)
      else Rel(sc[..k], b, slots)
  }

  ghost predicate Hosts(e: Entry, k: nat, v: W.Binding, slots: map<string, nat>) {
    var ssa := SsaName(e.name, k);
    v.name == e.name && v.ty == e.ty && ssa in slots && slots[ssa] == v.loc
  }

  /** No alloca of the first `n` declarations moves. */
  ghost predicate KeepsSlots(s: map<string, nat>, s': map<string, nat>, n: nat) {
    forall x: string, k: nat :: k < n && SsaName(x, k) in s ==>
      SsaName(x, k) in s' && s'[SsaName(x, k)] == s[SsaName(x, k)]
  }

  lemma {:induction false} NewSlotKeeps(s: map<string, nat>, x: string, n: nat, loc: nat)
    ensures KeepsSlots(s, s[SsaName(x, n) := loc], n)
  {
    forall y: string, k: nat | k < n && SsaName(y, k) in s
      ensures SsaName(y, k) != SsaName(x, n)
    {
      if SsaName(y, k) == SsaName(x, n) {
        SsaNamesDistinct(y, k, x, n);
      }
    }
  }

  lemma {:induction false} RelKeeps(sc: W.Scope, b: W.Bindings, s: map<string, nat>, s': map<string, nat>)
    requires Rel(sc, b, s) && KeepsSlots(s, s', |sc|)
    ensures Rel(sc, b, s')
  {
    if sc != [] {
      var k := |sc| - 1;
      RelKeeps(sc[..k], if sc[k].live then b[..|b| - 1] else b, s, s');
    }
  }

  lemma {:induction false} RelPush(sc: W.Scope, b: W.Bindings, s: map<string, nat>, e: Entry, loc: nat)
    requires Rel(sc, b, s)
    ensures var s' := s[SsaName(e.name, |sc|) := loc];
            KeepsSlots(s, s', |sc|) && Rel(sc + [W.Seen(e, true)], b + [W.Binding(e.name, e.ty, loc)], s')
  {
    var s' := s[SsaName(e.name, |sc|) := loc];
    var v := W.Binding(e.name, e.ty, loc);
    NewSlotKeeps(s, e.name, |sc|, loc);
    RelKeeps(sc, b, s, s');
    assert (sc + [W.Seen(e, true)])[..|sc|] == sc;
    assert (b + [v])[..|b|] == b;
  }

  /** Closed declarations do not count. */
  lemma {:induction false} RelDead(sc: W.Scope, full: W.Scope, b: W.Bindings, s: map<string, nat>)
    requires Rel(sc, b, s) && |sc| <= |full| && full[..|sc|] == sc
    requires forall k :: |sc| <= k < |full| ==> !full[k].live
    ensures Rel(full, b, s)
    decreases |full|
  {
    if |full| == |sc| {
      assert full == sc;
    } else {
      var k := |full| - 1;
      assert full[..k][..|sc|] == sc;
      RelDead(sc, full[..k], b, s);
    }
  }

  /** A use that resolves to an open declaration finds the same variable at run time. */
  lemma {:induction false} RelLookup(sc: W.Scope, b: W.Bindings, s: map<string, nat>, x: string)
    requires Rel(sc, b, s)
    requires Find(W.Plain(sc), x) >= 0 ==> W.Resolves(x, sc)
    ensures Find(W.Plain(sc), x) < 0 ==> W.Lookup(b, x) == None
    ensures var i := Find(W.Plain(sc), x);
            i >= 0 ==> W.Lookup(b, x).Some? && Hosts(sc[i].e, i, W.Lookup(b, x).value, s) && sc[i].e.name == x
  {
    if sc != [] {
      var k := |sc| - 1;
      assert W.Plain(sc)[..k] == W.Plain(sc[..k]);
      if sc[k].e.name != x {
        RelLookup(sc[..k], if sc[k].live then b[..|b| - 1] else b, s, x);
      }
    }
  }

  lemma {:induction false} DeclaredType(b: W.Bindings, x: string)
    ensures |W.Declared(b)| == |b|
    ensures W.Lookup(b, x) == None ==> TypeOf(W.Declared(b), x) == None
    ensures W.Lookup(b, x).Some? ==> TypeOf(W.Declared(b), x) == Some(W.Lookup(b, x).value.ty)
  {
    if b != [] {
      var d := W.Declared(b);
      DeclaredType(b[..|b| - 1], x);
      assert d[..|b| - 1] == W.Declared(b[..|b| - 1]);
    }
  }

  /** Static types agree between the generator's environment and the variables in scope. */
  lemma {:induction false} TypesAgree(e: W.Expr, sc: W.Scope, b: W.Bindings, s: map<string, nat>, sigs: W.Sigs)
    requires Rel(sc, b, s) && W.ExprOk(e, sc, sigs)
    ensures W.ExprType(e, W.Declared(b), sigs) == W.ExprType(e, W.Plain(sc), sigs)
  {
    if e.Var? || e.AddrOf? {
      RelLookup(sc, b, s, e.x);
      DeclaredType(b, e.x);
    }
  }

  /** The recorded type of generated code is the static type. */
  lemma {:induction false} GenType(e: W.Expr, env: seq<Entry>, sigs: W.Sigs, temp: nat)
    ensures GenExpr(e, env, sigs, temp).v.ty == W.ExprType(e, env, sigs)
  {
  }

  /** And what counts as 0 is the constant 0. */
  lemma {:induction false} GenZero(e: W.Expr, env: seq<Entry>, sigs: W.Sigs, temp: nat)
    requires W.IsZero(e, env, sigs)
    ensures GenExpr(e, env, sigs, temp).v == ZERO
  {
  }

  lemma {:induction false} PlainPush(sc: W.Scope, e: Entry)
    ensures W.Plain(sc + [W.Seen(e, true)]) == W.Plain(sc) + [e]
  {
    assert (sc + [W.Seen(e, true)])[..|sc|] == sc;
  }

  /** The alloca of a new declaration carries its position. */
  lemma {:induction false} LetSlot(sc: W.Scope, e: Entry)
    ensures SsaOf(W.Plain(sc) + [e], e.name) == SsaName(e.name, |sc|)
  {
    FindAfterAdd(W.Plain(sc), e, e.name);
  }

  /** `full` starts with the declarations of `sc`. */
  ghost predicate Extends(sc: W.Scope, full: W.Scope) {
    |sc| <= |full| && full[..|sc|] == sc
  }

  lemma {:induction false} ExtendsTrans(a: W.Scope, b: W.Scope, c: W.Scope)
    requires Extends(a, b) && Extends(b, c)
    ensures Extends(a, c)
  {
    assert c[..|a|] == c[..|b|][..|a|];
  }

  /** Closing a scope keeps the outer declarations, and all names. */
  lemma {:induction false} CloseKeeps(sc: W.Scope, full: W.Scope)
    requires Extends(sc, full)
    ensures Extends(sc, W.Close(full, |sc|))
    ensures forall k :: |sc| <= k < |W.Close(full, |sc|)| ==> !W.Close(full, |sc|)[k].live
  {
    var r := W.Close(full, |sc|);
    forall k | 0 <= k < |sc| ensures r[k] == sc[k] {
      assert sc[k] == full[..|sc|][k];
    }
  }

  lemma {:induction false} PlainClose(sc: W.Scope, n: nat)
    ensures W.Plain(W.Close(sc, n)) == W.Plain(sc)
  {
  }

  /** The rules only add declarations at the end. */
  lemma {:induction false} CheckExtends(s: W.Stmt, sc: W.Scope, sigs: W.Sigs, ret: TypeRef)
    requires W.CheckStmt(s, sc, sigs, ret).Some?
    ensures Extends(sc, W.CheckStmt(s, sc, sigs, ret).value.sc)
    decreases s, 1
  {
    match s
    case Let(x, ty, e, rest) =>
      var sc' := sc + [W.Seen(Entry(x, ty), true)];
      ListCheckExtends(rest, sc', sigs, ret);
      ExtendsTrans(sc, sc', W.CheckStmt(s, sc, sigs, ret).value.sc);
    case Do(ss) => ListCheckExtends(ss, sc, sigs, ret);
    case If(_, thn, els) =>
      var t := W.CheckStmt(thn, sc, sigs, ret).value.sc;
      CheckExtends(thn, sc, sigs, ret);
      CloseKeeps(sc, t);
      var t' := W.Close(t, |sc|);
      CheckExtends(els, t', sigs, ret);
      var r := W.CheckStmt(els, t', sigs, ret).value.sc;
      ExtendsTrans(sc, t', r);
      CloseKeeps(sc, r);
    case While(_, body) =>
      CheckExtends(body, sc, sigs, ret);
      CloseKeeps(sc, W.CheckStmt(body, sc, sigs, ret).value.sc);
    case _ =>
  }

  lemma {:induction false} ListCheckExtends(ss: seq<W.Stmt>, sc: W.Scope, sigs: W.Sigs, ret: TypeRef)
    requires W.CheckList(ss, sc, sigs, ret).Some?
    ensures Extends(sc, W.CheckList(ss, sc, sigs, ret).value.sc)
    decreases ss, 0
  {
    if ss != [] {
      CheckExtends(ss[0], sc, sigs, ret);
      if !W.Exits(ss[0]) {
        var sc1 := W.CheckStmt(ss[0], sc, sigs, ret).value.sc;
        ListCheckExtends(ss[1..], sc1, sigs, ret);
        ExtendsTrans(sc, sc1, W.CheckList(ss, sc, sigs, ret).value.sc);
      }
    }
  }

  /** A value produced by generated code has the type the rules say. */
  ghost predicate SameLast(g: GenS, c: W.Checked) {
    g.exits ||
    (match g.last
     case None => c.last.None?
     case Some(v) => c.last.Some? && c.last.value.ty == v.ty && (c.last.value.zero ==> v == ZERO))
  }

  /** The rules track exactly the environment the generator builds, and the type of the
      last value. */
  lemma {:induction false} CheckTracksGen(s: W.Stmt, sc: W.Scope, sigs: W.Sigs, ret: TypeRef, temp: nat, lbl: nat)
    requires W.CheckStmt(s, sc, sigs, ret).Some?
    ensures var c := W.CheckStmt(s, sc, sigs, ret).value;
            var g := GenStmt(s, W.Plain(sc), sigs, ret, temp, lbl);
            g.env == W.Plain(c.sc) && SameLast(g, c)
    decreases s, 1
  {
    var env := W.Plain(sc);
    match s
    case Nop =>
    case Return(e) =>
    case StoreTo(_, _, _) =>
    case Let(x, ty, e, rest) =>
      PlainPush(sc, Entry(x, ty));
      var g := GenExpr(e, env, sigs, temp);
      ListTracksGen(rest, sc + [W.Seen(Entry(x, ty), true)], sigs, ret, GenInit(g, ty).temp, lbl);
    case Set(_, _) =>
    case Do(ss) => ListTracksGen(ss, sc, sigs, ret, temp, lbl);
    case If(c, thn, els) =>
      var t := W.CheckStmt(thn, sc, sigs, ret).value.sc;
      var g := GenTest(c, env, sigs, temp, lbl, lbl + 1);
      CheckTracksGen(thn, sc, sigs, ret, g.temp, lbl + 3);
      var gt := GenStmt(thn, env, sigs, ret, g.temp, lbl + 3);
      PlainClose(t, |sc|);
      CheckTracksGen(els, W.Close(t, |sc|), sigs, ret, gt.temp, gt.lbl);
      PlainClose(W.CheckStmt(els, W.Close(t, |sc|), sigs, ret).value.sc, |sc|);
    case While(c, body) =>
      var g := GenTest(c, env, sigs, temp, lbl + 1, lbl + 2);
      CheckTracksGen(body, sc, sigs, ret, g.temp, lbl + 3);
      PlainClose(W.CheckStmt(body, sc, sigs, ret).value.sc, |sc|);
    case Eval(e) =>
      GenType(e, env, sigs, temp);
      if W.IsZero(e, env, sigs) {
        GenZero(e, env, sigs, temp);
      }
  }

  lemma {:induction false} ListTracksGen(ss: seq<W.Stmt>, sc: W.Scope, sigs: W.Sigs, ret: TypeRef, temp: nat, lbl: nat)
    requires W.CheckList(ss, sc, sigs, ret).Some?
    ensures var c := W.CheckList(ss, sc, sigs, ret).value;
            var g := GenList(ss, W.Plain(sc), sigs, ret, temp, lbl);
            g.env == W.Plain(c.sc) && SameLast(g, c)
    decreases ss, 0
  {
    if ss != [] {
      CheckTracksGen(ss[0], sc, sigs, ret, temp, lbl);
      StmtShape(ss[0], W.Plain(sc), sigs, ret, temp, lbl);
      var h := GenStmt(ss[0], W.Plain(sc), sigs, ret, temp, lbl);
      if !h.exits {
        var sc1 := W.CheckStmt(ss[0], sc, sigs, ret).value.sc;
        ListTracksGen(ss[1..], sc1, sigs, ret, h.temp, h.lbl);
      }
    }
  }

  /** Running a statement only adds variables; it never rebinds those in scope. */
  lemma {:induction false} ExecExtends(p: W.Program, s: W.Stmt, b: W.Bindings, m: Memory, fuel: nat)
    ensures var r := W.ExecStmt(p, s, b, m, fuel);
            r.Ok? && r.v.Next? ==> |b| <= |r.v.b| && r.v.b[..|b|] == b
    decreases fuel, s, 0
  {
    match s
    case Let(x, ty, e, rest) =>
      var r := W.EvalExpr(p, e, b, m, fuel);
      if r.Ok? {
        var w := W.Initial(r.v.v, W.ExprType(e, W.Declared(b), W.SigsOf(p)), ty, r.v.mem);
        if w.Some? {
          ListExtends(p, rest, b + [W.Binding(x, ty, |r.v.mem|)], r.v.mem + [w.value], fuel);
        }
      }
    case Do(ss) => ListExtends(p, ss, b, m, fuel);
    case If(c, thn, els) =>
      var r := W.Coerced(W.EvalExpr(p, c, b, m, fuel), I32);
      if r.Ok? && r.v.v.Int? {
        ExecExtends(p, if r.v.v.n != 0 then thn else els, b, r.v.mem, fuel);
      }
    case While(c, body) =>
      var r := W.Coerced(W.EvalExpr(p, c, b, m, fuel), I32);
      if r.Ok? && r.v.v.Int? && r.v.v.n != 0 {
        ExecExtends(p, body, b, r.v.mem, fuel);
        var q := W.ExecStmt(p, body, b, r.v.mem, fuel);
        if q.Ok? && q.v.Next? && fuel > 0 {
          ExecExtends(p, s, b, q.v.mem, fuel - 1);
        }
      }
    case _ =>
  }

  lemma {:induction false} ListExtends(p: W.Program, ss: seq<W.Stmt>, b: W.Bindings, m: Memory, fuel: nat)
    ensures var r := W.ExecList(p, ss, b, m, fuel);
            r.Ok? && r.v.Next? ==> |b| <= |r.v.b| && r.v.b[..|b|] == b
    decreases fuel, ss, 0
  {
    if ss != [] {
      ExecExtends(p, ss[0], b, m, fuel);
      var r := W.ExecStmt(p, ss[0], b, m, fuel);
      if r.Ok? && r.v.Next? {
        ListExtends(p, ss[1..], r.v.b, r.v.mem, fuel);
      }
    }
  }

}
