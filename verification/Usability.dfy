/** Which variables stage0's output may use where: a check of a function body alone, without
    types or a signature table.

    A declaration is live where its alloca has been passed on every way through the blocks.
    The environment is never popped, so names declared in a branch or a loop body remain
    visible behind it, live or not. */
module Usability {
  import opened Wrappers
  import opened Types
  import opened Env
  import opened Gen
  import opened Blocks
  import opened Scoping
  import W = Weave

  /** The variables an expression mentions. */
  function Vars(e: W.Expr): set<string> {
    match e
    case Const(_) => {}
    case Var(x) => {x}
    case Binary(_, lhs, rhs) => Vars(lhs) + Vars(rhs)
    case AddrOf(x) => {x}
    case Deref(_, p) => Vars(p)
    case CallFn(_, args) => VarsIn(args)
  }

  function VarsIn(es: seq<W.Expr>): set<string> {
    if es == [] then {} else Vars(es[0]) + VarsIn(es[1..])
  }

  /** What the expression mentions is live; undeclared names count as 0 and use nothing. */
  predicate UsesOk(e: W.Expr, sc: W.Scope) {
    forall x :: x in Vars(e) && Find(W.Plain(sc), x) >= 0 ==> W.Resolves(x, sc)
  }

  /** `ssa` is the alloca of a live declaration. */
  predicate HasSlot(ssa: string, sc: W.Scope) {
    exists k :: 0 <= k < |sc| && sc[k].live && SsaName(sc[k].e.name, k) == ssa
  }

  /** The declarations after a statement, and whether the value left for an implicit return
      may be used: it may not when it is the address of a declaration that is not live. */
  datatype Usage = Usage(sc: W.Scope, value: Option<bool>)

  /** Behind an `if-stmt` what one branch declared is live if the other has left the function. */
  function After(thn: W.Scope, els: W.Scope, n: nat, thnExits: bool, elsExits: bool): W.Scope
    requires |thn| <= |els|
  {
    if thnExits then els
    else if elsExits then W.Close(thn + els[|thn|..], |thn|)
    else W.Close(els, n)
  }

  /** The address of a variable that nobody takes up is no use of it. */
  function UsageOf(s: W.Stmt, sc: W.Scope, ret: TypeRef): (r: Option<Usage>)
    ensures r.Some? ==> |sc| <= |r.value.sc|
  {
    match s
    case Nop => Some(Usage(sc, None))
    case Return(e) => if UsesOk(e, sc) || (ret.Void? && e.AddrOf?) then Some(Usage(sc, None)) else None
    case StoreTo(_, p, e) => if UsesOk(p, sc) && UsesOk(e, sc) then Some(Usage(sc, None)) else None
    case Let(x, ty, e, rest) =>
      if UsesOk(e, sc) then UsageOfList(rest, sc + [W.Seen(Entry(x, ty), true)], ret) else None
    case Set(x, e) =>
      if UsesOk(e, sc) && HasSlot(SsaOf(W.Plain(sc), x), sc) then Some(Usage(sc, None)) else None
    case Do(ss) => UsageOfList(ss, sc, ret)
    case If(c, thn, els) =>
      if !UsesOk(c, sc) then None
      else
        (match UsageOf(thn, sc, ret)
         case None => None
         case Some(t) =>
           (match UsageOf(els, W.Close(t.sc, |sc|), ret)
            case None => None
            case Some(f) => Some(Usage(After(t.sc, f.sc, |sc|, W.Exits(thn), W.Exits(els)), None))))
    case While(c, body) =>
      if !UsesOk(c, sc) then None
      else
        (match UsageOf(body, sc, ret)
         case None => None
         case Some(b) => Some(Usage(W.Close(b.sc, |sc|), None)))
    case Eval(e) => if UsesOk(e, sc) || e.AddrOf? then Some(Usage(sc, Some(UsesOk(e, sc)))) else None
  }

  function UsageOfList(ss: seq<W.Stmt>, sc: W.Scope, ret: TypeRef): (r: Option<Usage>)
    ensures r.Some? ==> |sc| <= |r.value.sc|
  {
    if ss == [] then Some(Usage(sc, None))
    else
      match UsageOf(ss[0], sc, ret)
      case None => None
      case Some(h) =>
        if W.Exits(ss[0]) then Some(Usage(h.sc, None))
        else
          (match UsageOfList(ss[1..], h.sc, ret)
           case None => None
           case Some(t) => Some(Usage(t.sc, if t.value.Some? then t.value else h.value)))
  }

  /** Of parameters with the same name the last one gets the alloca. */
  function Incoming(ps: seq<Entry>): (sc: W.Scope)
    ensures |sc| == |ps|
    ensures forall k :: 0 <= k < |sc| ==> sc[k] == W.Seen(ps[k], Find(ps, ps[k].name) == k)
  {
    seq(|ps|, k requires 0 <= k < |ps| => W.Seen(ps[k], Find(ps, ps[k].name) == k))
  }

  /** Every use in the function's output finds its alloca. */
  predicate ScopedFn(fn: W.FnDef) {
    match UsageOfList(fn.body, Incoming(fn.params), fn.ret)
    case None => false
    case Some(u) => W.ListExits(fn.body) || fn.ret.Void? || u.value != Some(false)
  }

  // ---------- the check follows the generator ----------

  lemma {:induction false} AfterFacts(sc: W.Scope, t: W.Scope, f: W.Scope, tx: bool, fx: bool)
    requires Extends(sc, t) && Extends(W.Close(t, |sc|), f)
    ensures Extends(sc, After(t, f, |sc|, tx, fx))
    ensures W.Plain(After(t, f, |sc|, tx, fx)) == W.Plain(f)
  {
    var n := |sc|;
    var t' := W.Close(t, n);
    var r := After(t, f, n, tx, fx);
    assert |r| == |f|;
    forall k | 0 <= k < |f|
      ensures k < n ==> r[k] == sc[k]
      ensures r[k].e == f[k].e
    {
      if k < |t| {
        assert f[k] == f[..|t'|][k] == t'[k];
        assert k < n ==> sc[k] == t[..n][k];
      }
    }
    assert r[..n] == sc;
  }

  /** It only adds declarations at the end. */
  lemma {:induction false} UsageExtends(s: W.Stmt, sc: W.Scope, ret: TypeRef)
    requires UsageOf(s, sc, ret).Some?
    ensures Extends(sc, UsageOf(s, sc, ret).value.sc)
    decreases s, 1
  {
    hide UsesOk, HasSlot, After;
    match s
    case Let(x, ty, e, rest) =>
      var sc' := sc + [W.Seen(Entry(x, ty), true)];
      ListUsageExtends(rest, sc', ret);
      ExtendsTrans(sc, sc', UsageOf(s, sc, ret).value.sc);
    case Do(ss) => ListUsageExtends(ss, sc, ret);
    case If(_, thn, els) =>
      var t := UsageOf(thn, sc, ret).value.sc;
      UsageExtends(thn, sc, ret);
      var f := UsageOf(els, W.Close(t, |sc|), ret).value.sc;
      UsageExtends(els, W.Close(t, |sc|), ret);
      AfterFacts(sc, t, f, W.Exits(thn), W.Exits(els));
    case While(_, body) =>
      UsageExtends(body, sc, ret);
      CloseKeeps(sc, UsageOf(body, sc, ret).value.sc);
    case _ =>
  }

  lemma {:induction false} ListUsageExtends(ss: seq<W.Stmt>, sc: W.Scope, ret: TypeRef)
    requires UsageOfList(ss, sc, ret).Some?
    ensures Extends(sc, UsageOfList(ss, sc, ret).value.sc)
    decreases ss, 0
  {
    if ss != [] {
      UsageExtends(ss[0], sc, ret);
      if !W.Exits(ss[0]) {
        var sc1 := UsageOf(ss[0], sc, ret).value.sc;
        ListUsageExtends(ss[1..], sc1, ret);
        ExtendsTrans(sc, sc1, UsageOfList(ss, sc, ret).value.sc);
      }
    }
  }

  /** Its declarations are those of the generator's environment, and it knows whether there
      is a value. */
  lemma {:induction false} UsageTracksGen(s: W.Stmt, sc: W.Scope, sigs: W.Sigs, ret: TypeRef, temp: nat, lbl: nat)
    requires UsageOf(s, sc, ret).Some?
    ensures var u := UsageOf(s, sc, ret).value;
            var g := GenStmt(s, W.Plain(sc), sigs, ret, temp, lbl);
            g.env == W.Plain(u.sc) && (g.exits || (g.last.Some? <==> u.value.Some?))
    decreases s, 1
  {
    hide UsesOk, HasSlot, After, W.Plain, GenExpr, GenTest, GenInit, SsaOf, TypeOf, W.Close, Closed;
    var env := W.Plain(sc);
    match s
    case Let(x, ty, e, rest) =>
      PlainPush(sc, Entry(x, ty));
      var g := GenExpr(e, env, sigs, temp);
      ListUsageTracksGen(rest, sc + [W.Seen(Entry(x, ty), true)], sigs, ret, GenInit(g, ty).temp, lbl);
    case Do(ss) => ListUsageTracksGen(ss, sc, sigs, ret, temp, lbl);
    case If(_, _, _) => IfUsageTracksGen(s, sc, sigs, ret, temp, lbl);
    case While(c, body) =>
      var g := GenTest(c, env, sigs, temp, lbl + 1, lbl + 2);
      UsageTracksGen(body, sc, sigs, ret, g.temp, lbl + 3);
      PlainClose(UsageOf(body, sc, ret).value.sc, |sc|);
    case _ =>
  }

  lemma {:induction false} IfUsageTracksGen(s: W.Stmt, sc: W.Scope, sigs: W.Sigs, ret: TypeRef, temp: nat, lbl: nat)
    requires s.If? && UsageOf(s, sc, ret).Some?
    ensures var u := UsageOf(s, sc, ret).value;
            var g := GenStmt(s, W.Plain(sc), sigs, ret, temp, lbl);
            g.env == W.Plain(u.sc) && g.last.None? && u.value.None?
    decreases s, 0
  {
    hide UsesOk, HasSlot, After, W.Plain, GenTest, GenStmt, W.Close, Closed, Extends;
    var env := W.Plain(sc);
    var t := UsageOf(s.thn, sc, ret).value.sc;
    var sc1 := W.Close(t, |sc|);
    var q := GenTest(s.cond, env, sigs, temp, lbl, lbl + 1);
    var g := GenStmt(s.thn, env, sigs, ret, q.temp, lbl + 3);
    IfCode(s, env, sigs, ret, temp, lbl);
    UsageTracksGen(s.thn, sc, sigs, ret, q.temp, lbl + 3);
    PlainClose(t, |sc|);
    UsageTracksGen(s.els, sc1, sigs, ret, g.temp, g.lbl);
    UsageExtends(s.thn, sc, ret);
    UsageExtends(s.els, sc1, ret);
    AfterFacts(sc, t, UsageOf(s.els, sc1, ret).value.sc, W.Exits(s.thn), W.Exits(s.els));
  }

  lemma {:induction false} ListUsageTracksGen(ss: seq<W.Stmt>, sc: W.Scope, sigs: W.Sigs, ret: TypeRef, temp: nat,
          lbl: nat)
    requires UsageOfList(ss, sc, ret).Some?
    ensures var u := UsageOfList(ss, sc, ret).value;
            var g := GenList(ss, W.Plain(sc), sigs, ret, temp, lbl);
            g.env == W.Plain(u.sc) && (g.exits || (g.last.Some? <==> u.value.Some?))
    decreases ss, 0
  {
    if ss != [] {
      UsageTracksGen(ss[0], sc, sigs, ret, temp, lbl);
      StmtShape(ss[0], W.Plain(sc), sigs, ret, temp, lbl);
      var h := GenStmt(ss[0], W.Plain(sc), sigs, ret, temp, lbl);
      if !h.exits {
        var sc1 := UsageOf(ss[0], sc, ret).value.sc;
        ListUsageTracksGen(ss[1..], sc1, sigs, ret, h.temp, h.lbl);
      }
    }
  }

  // ---------- the typed rules imply it ----------

  /** The same declarations, of which at least as many are live. */
  ghost predicate Below(a: W.Scope, b: W.Scope) {
    |a| == |b| && forall k :: 0 <= k < |a| ==> a[k].e == b[k].e && (a[k].live ==> b[k].live)
  }

  lemma {:induction false} BelowPlain(a: W.Scope, b: W.Scope)
    requires Below(a, b)
    ensures W.Plain(a) == W.Plain(b)
  {
  }

  lemma {:induction false} CheckedVars(e: W.Expr, a: W.Scope, b: W.Scope, sigs: W.Sigs)
    requires W.ExprOk(e, a, sigs) && Below(a, b)
    ensures UsesOk(e, b)
    decreases e, 1
  {
    hide W.OperandsOk;
    BelowPlain(a, b);
    match e
    case Binary(_, lhs, rhs) =>
      CheckedVars(lhs, a, b, sigs);
      CheckedVars(rhs, a, b, sigs);
    case Deref(_, p) => CheckedVars(p, a, b, sigs);
    case CallFn(f, args) => CheckedArgs(args, sigs[f].params, a, b, sigs);
    case _ =>
  }

  lemma {:induction false} CheckedArgs(es: seq<W.Expr>, tys: seq<TypeRef>, a: W.Scope, b: W.Scope, sigs: W.Sigs)
    requires W.ArgsOk(es, tys, a, sigs) && Below(a, b)
    ensures forall x :: x in VarsIn(es) && Find(W.Plain(b), x) >= 0 ==> W.Resolves(x, b)
    decreases es, 0
  {
    if es != [] {
      CheckedVars(es[0], a, b, sigs);
      CheckedArgs(es[1..], tys[1..], a, b, sigs);
    }
  }

  lemma {:induction false} CheckedTarget(x: string, a: W.Scope, b: W.Scope)
    requires W.Resolves(x, a) && Below(a, b)
    ensures HasSlot(SsaOf(W.Plain(b), x), b)
  {
    BelowPlain(a, b);
    FindIsLast(W.Plain(b), x);
  }

  ghost predicate Covers(c: Option<W.Checked>, u: Option<Usage>) {
    c.Some? ==> u.Some? && Below(c.value.sc, u.value.sc) && u.value.value != Some(false)
  }

  lemma {:induction false} BelowClose(sc: W.Scope, t: W.Scope, f: W.Scope, c: W.Scope, tx: bool, fx: bool)
    requires |sc| <= |t| <= |f| && Extends(W.Close(t, |sc|), f) && Below(c, f)
    ensures Below(W.Close(c, |sc|), After(t, f, |sc|, tx, fx))
  {
    var t' := W.Close(t, |sc|);
    var r := After(t, f, |sc|, tx, fx);
    forall k | 0 <= k < |t| ensures f[k] == t'[k] {
      assert f[..|t'|][k] == t'[k];
    }
  }

  lemma {:induction false} BelowShut(a: W.Scope, b: W.Scope, n: nat)
    requires Below(a, b)
    ensures Below(W.Close(a, n), W.Close(b, n))
  {
  }

  lemma {:induction false} CheckedIsUsable(s: W.Stmt, a: W.Scope, b: W.Scope, sigs: W.Sigs, ret: TypeRef)
    requires Below(a, b)
    ensures Covers(W.CheckStmt(s, a, sigs, ret), UsageOf(s, b, ret))
    decreases s, 1
  {
    hide W.ExprOk, UsesOk, W.Resolves, HasSlot, After, Below, Extends;
    if W.CheckStmt(s, a, sigs, ret).Some? {
      BelowSize(a, b);
      match s
      case Nop =>
      case Return(e) => CheckedVars(e, a, b, sigs);
      case StoreTo(_, p, e) =>
        CheckedVars(p, a, b, sigs);
        CheckedVars(e, a, b, sigs);
      case Let(x, ty, e, rest) =>
        CheckedVars(e, a, b, sigs);
        BelowPush(a, b, W.Seen(Entry(x, ty), true));
        CheckedListIsUsable(rest, a + [W.Seen(Entry(x, ty), true)], b + [W.Seen(Entry(x, ty), true)], sigs, ret);
      case Set(x, e) =>
        CheckedVars(e, a, b, sigs);
        CheckedTarget(x, a, b);
      case Do(ss) => CheckedListIsUsable(ss, a, b, sigs, ret);
      case If(c, thn, els) =>
        CheckedVars(c, a, b, sigs);
        CheckedIsUsable(thn, a, b, sigs, ret);
        var ct, ut := W.CheckStmt(thn, a, sigs, ret).value.sc, UsageOf(thn, b, ret).value.sc;
        BelowShut(ct, ut, |a|);
        CheckedIsUsable(els, W.Close(ct, |a|), W.Close(ut, |b|), sigs, ret);
        UsageExtends(els, W.Close(ut, |b|), ret);
        BelowClose(b, ut, UsageOf(els, W.Close(ut, |b|), ret).value.sc,
                   W.CheckStmt(els, W.Close(ct, |a|), sigs, ret).value.sc, W.Exits(thn), W.Exits(els));
      case While(c, body) =>
        CheckedVars(c, a, b, sigs);
        CheckedIsUsable(body, a, b, sigs, ret);
        BelowShut(W.CheckStmt(body, a, sigs, ret).value.sc, UsageOf(body, b, ret).value.sc, |a|);
      case Eval(e) => CheckedVars(e, a, b, sigs);
    }
  }

  lemma {:induction false} BelowSize(a: W.Scope, b: W.Scope)
    requires Below(a, b)
    ensures |a| == |b|
  {
  }

  lemma {:induction false} BelowPush(a: W.Scope, b: W.Scope, d: W.Seen)
    requires Below(a, b)
    ensures Below(a + [d], b + [d])
  {
  }

  lemma {:induction false} CheckedListIsUsable(ss: seq<W.Stmt>, a: W.Scope, b: W.Scope, sigs: W.Sigs, ret: TypeRef)
    requires Below(a, b)
    ensures Covers(W.CheckList(ss, a, sigs, ret), UsageOfList(ss, b, ret))
    decreases ss, 0
  {
    hide W.CheckStmt, UsageOf, Below;
    if ss != [] {
      CheckedIsUsable(ss[0], a, b, sigs, ret);
      if W.CheckStmt(ss[0], a, sigs, ret).Some? && !W.Exits(ss[0]) {
        CheckedListIsUsable(ss[1..], W.CheckStmt(ss[0], a, sigs, ret).value.sc, UsageOf(ss[0], b, ret).value.sc,
                            sigs, ret);
      }
    }
  }

  /** The scoping and typing rules under which code is correct imply the check. */
  lemma {:induction false} CheckedIsScoped(fn: W.FnDef, sigs: W.Sigs)
    requires W.FnOk(fn, sigs)
    ensures ScopedFn(fn)
  {
    hide W.CheckList, UsageOfList;
    var a, b := W.ParamScope(fn.params), Incoming(fn.params);
    forall k | 0 <= k < |a| ensures b[k].live {
      FindIsLast(fn.params, fn.params[k].name);
    }
    CheckedListIsUsable(fn.body, a, b, sigs, fn.ret);
  }
}
