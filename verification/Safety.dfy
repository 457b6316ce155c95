/** Programs that obey the rules do not go wrong.  Their runs, in the source and in the
    emitted code, can only be stuck on a division, at the null pointer, or at a variable of
    a call that has returned. */
module Safety {
  import opened Wrappers
  import opened Types
  import opened Values
  import opened Env
  import opened Ir
  import opened Gen
  import opened Scoping
  import opened Correctness
  import opened TypedMemory
  import Linking
  import W = Weave

  // ---------- programs over types that have values ----------

  predicate ExprIn(e: W.Expr, pt: Pointers) {
    match e
    case Const(_) => true
    case Var(_) => true
    case Binary(_, lhs, rhs) => ExprIn(lhs, pt) && ExprIn(rhs, pt)
    case AddrOf(_) => !pt.Absent?
    case Deref(ty, p) => !pt.Absent? && Storable(ty, pt) && ExprIn(p, pt)
    case CallFn(_, args) => ArgsIn(args, pt)
  }

  predicate ArgsIn(es: seq<W.Expr>, pt: Pointers) {
    es == [] || (ExprIn(es[0], pt) && ArgsIn(es[1..], pt))
  }

  predicate StmtIn(s: W.Stmt, pt: Pointers) {
    match s
    case Nop => true
    case Return(e) => ExprIn(e, pt)
    case StoreTo(ty, p, e) => !pt.Absent? && MayLeave(ty, pt) && ExprIn(p, pt) && ExprIn(e, pt)
    case Let(_, ty, e, rest) => Storable(ty, pt) && ExprIn(e, pt) && ListIn(rest, pt)
    case Set(_, e) => ExprIn(e, pt)
    case Do(ss) => ListIn(ss, pt)
    case If(c, thn, els) => ExprIn(c, pt) && StmtIn(thn, pt) && StmtIn(els, pt)
    case While(c, body) => ExprIn(c, pt) && StmtIn(body, pt)
    case Eval(e) => ExprIn(e, pt)
  }

  predicate ListIn(ss: seq<W.Stmt>, pt: Pointers) {
    ss == [] || (StmtIn(ss[0], pt) && ListIn(ss[1..], pt))
  }

  /** Types of what may leave a call, by a return or a store. */
  predicate MayLeave(ty: TypeRef, pt: Pointers) {
    Storable(ty, pt) && !(pt.Confined? && ty.Ptr?)
  }

  predicate FnIn(fn: W.FnDef, pt: Pointers) {
    (forall k :: 0 <= k < |fn.params| ==> Storable(fn.params[k].ty, pt)) &&
    (fn.ret.Void? || MayLeave(fn.ret, pt)) && ListIn(fn.body, pt)
  }

  /** All types that the program declares or names have values, and it uses pointers in the
      given way only. */
  predicate ProgramIn(p: W.Program, pt: Pointers) {
    forall k :: 0 <= k < |p| ==> FnIn(p[k], pt)
  }

  // ---------- variables ----------

  /** The open declarations are, in order, the variables in scope, in cells of their types. */
  predicate Matches(sc: W.Scope, b: W.Bindings, lay: Layout, pt: Pointers) {
    if sc == [] then b == []
    else
      var k := |sc| - 1;
      if sc[k].live then
        b != [] && Housed(sc[k].e, b[|b| - 1], lay, pt) && Matches(sc[..k], b[..|b| - 1], lay, pt)
      else Matches(sc[..k], b, lay, pt)
  }

  predicate Housed(e: Entry, v: W.Binding, lay: Layout, pt: Pointers) {
    v.name == e.name && v.ty == e.ty && Storable(e.ty, pt) && v.loc < |lay| && lay[v.loc] == e.ty
  }

  /** The variables in scope are in live cells of the call that started at `base`. */
  predicate Owned(b: W.Bindings, m: Memory, base: nat) {
    base <= |m| && forall k :: 0 <= k < |b| ==> base <= b[k].loc < |m| && !m[b[k].loc].Dead?
  }

  ghost predicate Ready(sc: W.Scope, b: W.Bindings, st: Cells, base: nat, pt: Pointers) {
    Matches(sc, b, st.lay, pt) && Owned(b, st.m, base) && Good(st, pt)
  }

  lemma {:induction false} MatchesMore(sc: W.Scope, b: W.Bindings, lay: Layout, more: Layout, pt: Pointers)
    requires Matches(sc, b, lay, pt) && lay <= more
    ensures Matches(sc, b, more, pt)
  {
    if sc != [] {
      var k := |sc| - 1;
      MatchesMore(sc[..k], if sc[k].live then b[..|b| - 1] else b, lay, more, pt);
    }
  }

  lemma {:induction false} MatchesPush(sc: W.Scope, b: W.Bindings, lay: Layout, e: Entry, pt: Pointers)
    requires Matches(sc, b, lay, pt) && Storable(e.ty, pt)
    ensures Matches(sc + [W.Seen(e, true)], b + [W.Binding(e.name, e.ty, |lay|)], lay + [e.ty], pt)
  {
    var v := W.Binding(e.name, e.ty, |lay|);
    MatchesMore(sc, b, lay, lay + [e.ty], pt);
    assert (sc + [W.Seen(e, true)])[..|sc|] == sc && (b + [v])[..|b|] == b;
  }

  /** Behind a scope that has been closed the outer variables are in scope as before. */
  lemma {:induction false} MatchesClose(sc: W.Scope, full: W.Scope, b: W.Bindings, lay: Layout, pt: Pointers)
    requires Matches(sc, b, lay, pt) && Extends(sc, full)
    ensures Matches(W.Close(full, |sc|), b, lay, pt)
    decreases |full|
  {
    if |full| == |sc| {
      assert full == sc && W.Close(full, |sc|) == full;
    } else {
      var init := full[..|full| - 1];
      assert init[..|sc|] == full[..|sc|];
      MatchesClose(sc, init, b, lay, pt);
      assert W.Close(full, |sc|)[..|full| - 1] == W.Close(init, |sc|);
    }
  }

  lemma {:induction false} MatchesLookup(sc: W.Scope, b: W.Bindings, lay: Layout, pt: Pointers, x: string)
    requires Matches(sc, b, lay, pt)
    requires Find(W.Plain(sc), x) >= 0 ==> W.Resolves(x, sc)
    ensures Find(W.Plain(sc), x) < 0 ==> W.Lookup(b, x) == None
    ensures var i := Find(W.Plain(sc), x);
            i >= 0 ==> W.Lookup(b, x).Some? && Housed(sc[i].e, W.Lookup(b, x).value, lay, pt)
  {
    if sc != [] {
      var k := |sc| - 1;
      assert W.Plain(sc)[..k] == W.Plain(sc[..k]);
      if sc[k].e.name != x {
        MatchesLookup(sc[..k], if sc[k].live then b[..|b| - 1] else b, lay, pt, x);
      }
    }
  }

  lemma {:induction false} OwnedLookup(b: W.Bindings, m: Memory, base: nat, x: string)
    requires Owned(b, m, base) && W.Lookup(b, x).Some?
    ensures var v := W.Lookup(b, x).value; base <= v.loc < |m| && !m[v.loc].Dead?
  {
    if b[|b| - 1].name != x {
      OwnedLookup(b[..|b| - 1], m, base, x);
    }
  }

  /** A variable in scope is a typed address. */
  lemma {:induction false} VarReady(sc: W.Scope, b: W.Bindings, st: Cells, base: nat, pt: Pointers, x: string)
    requires Ready(sc, b, st, base, pt) && (Find(W.Plain(sc), x) >= 0 ==> W.Resolves(x, sc))
    ensures W.Lookup(b, x).None? <==> TypeOf(W.Plain(sc), x).None?
    ensures W.Lookup(b, x).Some? ==>
              var v := W.Lookup(b, x).value;
              TypeOf(W.Plain(sc), x) == Some(v.ty) && Storable(v.ty, pt) && base <= v.loc < |st.m| &&
              !st.m[v.loc].Dead? && Typed(Pointer(v.loc), Ptr(v.ty), st, pt)
  {
    hide Matches, Good;
    MatchesLookup(sc, b, st.lay, pt, x);
    if W.Lookup(b, x).Some? {
      OwnedLookup(b, st.m, base, x);
    }
  }

  lemma {:induction false} ReadyOnward(sc: W.Scope, b: W.Bindings, st: Cells, more: Cells, base: nat, pt: Pointers)
    requires Ready(sc, b, st, base, pt) && Onward(st, more, base, pt)
    ensures Ready(sc, b, more, base, pt)
  {
    hide Matches, Good;
    MatchesMore(sc, b, st.lay, more.lay, pt);
  }

  lemma {:induction false} ReadyClose(sc: W.Scope, full: W.Scope, b: W.Bindings, st: Cells, base: nat, pt: Pointers)
    requires Ready(sc, b, st, base, pt) && Extends(sc, full)
    ensures Ready(W.Close(full, |sc|), b, st, base, pt)
  {
    hide Matches, Good, Owned;
    MatchesClose(sc, full, b, st.lay, pt);
  }

  /** A new variable. */
  lemma {:induction false} ReadyPush(sc: W.Scope, b: W.Bindings, st: Cells, e: Entry, v: Value, base: nat, pt: Pointers)
    requires Ready(sc, b, st, base, pt) && Storable(e.ty, pt) && Typed(v, e.ty, st, pt)
    ensures var more := Cells(st.m + [v], st.lay + [e.ty]);
            Onward(st, more, base, pt) &&
            Ready(sc + [W.Seen(e, true)], b + [W.Binding(e.name, e.ty, |st.m|)], more, base, pt)
  {
    hide Matches;
    assert |st.m| == |st.lay|;
    PushTyped(st, [v], [e.ty], base, pt);
    MatchesPush(sc, b, st.lay, e, pt);
  }

  /** Static types are the same for the variables in scope. */
  lemma {:induction false} StaticType(e: W.Expr, sc: W.Scope, b: W.Bindings, lay: Layout, pt: Pointers, sigs: W.Sigs)
    requires Matches(sc, b, lay, pt) && W.ExprOk(e, sc, sigs)
    ensures W.ExprType(e, W.Declared(b), sigs) == W.ExprType(e, W.Plain(sc), sigs)
  {
    if e.Var? || e.AddrOf? {
      MatchesLookup(sc, b, lay, pt, e.x);
      DeclaredType(b, e.x);
    }
  }

  lemma {:induction false} MatchesParams(ps: seq<Entry>, base: nat, lay: Layout, pt: Pointers)
    requires base + |ps| <= |lay|
    requires forall k :: 0 <= k < |ps| ==> Storable(ps[k].ty, pt) && lay[base + k] == ps[k].ty
    ensures Matches(W.ParamScope(ps), W.ParamBindings(ps, base), lay, pt)
  {
    if ps != [] {
      var init := ps[..|ps| - 1];
      MatchesParams(init, base, lay, pt);
      assert W.ParamScope(ps)[..|ps| - 1] == W.ParamScope(init);
      assert W.ParamBindings(ps, base)[..|ps| - 1] == W.ParamBindings(init, base);
    }
  }

  // ---------- control ----------

  /** A statement that exits never ends behind itself. */
  lemma {:induction false} ExitsLeave(p: W.Program, s: W.Stmt, b: W.Bindings, m: Memory, fuel: nat)
    requires W.Exits(s)
    ensures var r := W.ExecStmt(p, s, b, m, fuel); r.Ok? ==> r.v.Returned?
    decreases s, 1
  {
    hide W.EvalExpr, W.Initial, W.SigsOf, W.ExprType, W.Declared;
    match s
    case Return(_) =>
    case Let(x, ty, e, rest) =>
      var r := W.EvalExpr(p, e, b, m, fuel);
      if r.Ok? {
        var w := W.Initial(r.v.v, W.ExprType(e, W.Declared(b), W.SigsOf(p)), ty, r.v.mem);
        if w.Some? {
          ListExitsLeave(p, rest, b + [W.Binding(x, ty, |r.v.mem|)], r.v.mem + [w.value], fuel);
        }
      }
    case Do(ss) => ListExitsLeave(p, ss, b, m, fuel);
    case If(c, thn, els) =>
      var r := W.Coerced(W.EvalExpr(p, c, b, m, fuel), I32);
      if r.Ok? && r.v.v.Int? {
        ExitsLeave(p, if r.v.v.n != 0 then thn else els, b, r.v.mem, fuel);
      }
  }

  lemma {:induction false} ListExitsLeave(p: W.Program, ss: seq<W.Stmt>, b: W.Bindings, m: Memory, fuel: nat)
    requires W.ListExits(ss)
    ensures var r := W.ExecList(p, ss, b, m, fuel); r.Ok? ==> r.v.Returned?
    decreases ss, 0
  {
    hide W.ExecStmt;
    var r := W.ExecStmt(p, ss[0], b, m, fuel);
    if W.Exits(ss[0]) {
      ExitsLeave(p, ss[0], b, m, fuel);
    } else if r.Ok? && r.v.Next? {
      ListExitsLeave(p, ss[1..], r.v.b, r.v.mem, fuel);
    }
  }

  // ---------- expressions ----------

  ghost predicate Sound(p: W.Program, pt: Pointers) {
    W.ProgramOk(p) && ProgramIn(p, pt)
  }

  /** The faults that remain possible. */
  predicate Tolerated(c: W.Fault, pt: Pointers) {
    c.Division? || (!pt.Absent? && c.NullAccess?) || (pt.Free? && c.Dangling?)
  }

  predicate Yields(y: W.Yield, v: Value, st: Cells, pt: Pointers) {
    Storable(y.ty, pt) && Typed(v, y.ty, st, pt) && (y.zero ==> v == Int(0))
  }

  ghost predicate SafeExpr(r: W.Res<W.ValMem>, y: W.Yield, st: Cells, more: Cells, base: nat, pt: Pointers) {
    match r
    case Ok(x) => x.mem == more.m && Onward(st, more, base, pt) && Yields(y, x.v, more, pt)
    case Stuck(c) => Tolerated(c, pt)
    case Timeout => true
  }

  ghost predicate SafeArgs(r: W.Res<W.ValsMem>, tys: seq<TypeRef>, st: Cells, more: Cells, base: nat, pt: Pointers) {
    match r
    case Ok(x) => x.mem == more.m && Onward(st, more, base, pt) && AllTyped(W.CoerceAll(x.vs, tys), tys, more, pt)
    case Stuck(c) => Tolerated(c, pt)
    case Timeout => true
  }

  lemma {:induction false} EvalSafe(p: W.Program, e: W.Expr, sc: W.Scope, b: W.Bindings, fuel: nat, st: Cells,
          base: nat, pt: Pointers)
    returns (more: Cells)
    requires Sound(p, pt) && W.ExprOk(e, sc, W.SigsOf(p)) && ExprIn(e, pt) && Ready(sc, b, st, base, pt)
    ensures SafeExpr(W.EvalExpr(p, e, b, st.m, fuel), W.YieldOf(e, W.Plain(sc), W.SigsOf(p)), st, more, base, pt)
    decreases fuel, e, 1
  {
    hide Sound, Ready, Good, Onward, Read, W.SigsOf, W.Plain, Find, W.RunFn, W.Apply, W.OperandsOk, W.AccessFault;
    more := st;
    ReadyGood(sc, b, st, base, pt);
    match e
    case Const(_) =>
    case Var(x) => VarSafe(sc, b, st, base, pt, x);
    case AddrOf(x) => VarReady(sc, b, st, base, pt, x);
    case Binary(_, _, _) => more := BinarySafe(p, e, sc, b, fuel, st, base, pt);
    case Deref(ty, q) =>
      more := EvalSafe(p, q, sc, b, fuel, st, base, pt);
      if W.EvalExpr(p, q, b, st.m, fuel).Ok? {
        OnwardGood(st, more, base, pt);
        ReadTyped(more, W.EvalExpr(p, q, b, st.m, fuel).v.v, ty, pt);
      }
    case CallFn(_, _) => more := CallSafe(p, e, sc, b, fuel, st, base, pt);
  }

  lemma {:induction false} ReadyGood(sc: W.Scope, b: W.Bindings, st: Cells, base: nat, pt: Pointers)
    requires Ready(sc, b, st, base, pt)
    ensures Good(st, pt) && |st.m| == |st.lay| && base <= |st.m| && Onward(st, st, base, pt)
  {
    OnwardSelf(st, base, pt);
  }

  lemma {:induction false} OnwardGood(st: Cells, more: Cells, base: nat, pt: Pointers)
    requires Onward(st, more, base, pt)
    ensures Good(more, pt) && |more.m| == |more.lay|
  {
  }

  /** A variable in scope can be read. */
  lemma {:induction false} VarSafe(sc: W.Scope, b: W.Bindings, st: Cells, base: nat, pt: Pointers, x: string)
    requires Ready(sc, b, st, base, pt) && (Find(W.Plain(sc), x) >= 0 ==> W.Resolves(x, sc))
    ensures W.Lookup(b, x).None? <==> TypeOf(W.Plain(sc), x).None?
    ensures W.Lookup(b, x).Some? ==>
              var v := W.Lookup(b, x).value;
              var w := Read(st.m, Pointer(v.loc), v.ty);
              TypeOf(W.Plain(sc), x) == Some(v.ty) && Storable(v.ty, pt) && w.Some? && Typed(w.value, v.ty, st, pt)
  {
    hide Matches, Good, Owned, Typed, Find;
    VarReady(sc, b, st, base, pt, x);
    if W.Lookup(b, x).Some? {
      var v := W.Lookup(b, x).value;
      ReadTyped(st, Pointer(v.loc), v.ty, pt);
    }
  }

  /** An operator applied to checked operands is stuck on divisions only. */
  lemma {:induction false} ApplySafe(op: W.Operator, y: W.Yield, z: W.Yield, l: Value, r: Value)
    requires Fits(l, y.ty) && Fits(r, z.ty) && (y.zero ==> l == Int(0)) && (z.zero ==> r == Int(0))
    requires var ty := W.OperandType(op, y.ty, z.ty); W.Converts(y, ty) && W.Converts(z, ty)
    ensures var (a, b) := if op.Cmp? then (l, r) else (W.Coerce(l, I32), W.Coerce(r, I32));
            var v := W.Apply(op, a, b);
            if v.None? then W.OperatorFault(op, a, b) == W.Division else v.value.Int?
  {
  }

  lemma {:induction false} BinarySafe(p: W.Program, e: W.Expr, sc: W.Scope, b: W.Bindings, fuel: nat, st: Cells,
          base: nat, pt: Pointers)
    returns (more: Cells)
    requires e.Binary? && Sound(p, pt) && W.ExprOk(e, sc, W.SigsOf(p)) && ExprIn(e, pt) && Ready(sc, b, st, base, pt)
    ensures SafeExpr(W.EvalExpr(p, e, b, st.m, fuel), W.YieldOf(e, W.Plain(sc), W.SigsOf(p)), st, more, base, pt)
    decreases fuel, e, 0
  {
    hide Sound, Ready, Onward, W.SigsOf, W.Plain, W.Apply, W.OperatorFault, W.Converts, W.OperandType, Typed, Storable,
      W.Coerce;
    var env, sigs := W.Plain(sc), W.SigsOf(p);
    more := EvalSafe(p, e.lhs, sc, b, fuel, st, base, pt);
    var l := W.EvalExpr(p, e.lhs, b, st.m, fuel);
    if l.Ok? {
      var mid := more;
      ReadyOnward(sc, b, st, mid, base, pt);
      more := EvalSafe(p, e.rhs, sc, b, fuel, mid, base, pt);
      var r := W.EvalExpr(p, e.rhs, b, mid.m, fuel);
      if r.Ok? {
        OnwardTrans(st, mid, more, base, pt);
        TypedFits(l.v.v, W.ExprType(e.lhs, env, sigs), mid, pt);
        TypedFits(r.v.v, W.ExprType(e.rhs, env, sigs), more, pt);
        ApplySafe(e.op, W.YieldOf(e.lhs, env, sigs), W.YieldOf(e.rhs, env, sigs), l.v.v, r.v.v);
        NumberTyped(more, pt);
      }
    }
  }

  lemma {:induction false} NumberTyped(st: Cells, pt: Pointers)
    ensures Storable(I32, pt) && forall n :: Typed(Int(n), I32, st, pt)
  {
  }

  lemma {:induction false} ArgsSafe(p: W.Program, es: seq<W.Expr>, tys: seq<TypeRef>, sc: W.Scope, b: W.Bindings,
          fuel: nat, st: Cells, base: nat, pt: Pointers)
    returns (more: Cells)
    requires Sound(p, pt) && W.ArgsOk(es, tys, sc, W.SigsOf(p)) && ArgsIn(es, pt) && Ready(sc, b, st, base, pt)
    ensures SafeArgs(W.EvalList(p, es, b, st.m, fuel), tys, st, more, base, pt)
    decreases fuel, es, 0
  {
    hide Sound, Ready, Onward, W.SigsOf, W.Plain, W.EvalExpr, W.ExprOk, W.YieldOf, W.Converts, Typed, W.Coerce;
    more := st;
    ReadyGood(sc, b, st, base, pt);
    if es != [] {
      more := EvalSafe(p, es[0], sc, b, fuel, st, base, pt);
      var h := W.EvalExpr(p, es[0], b, st.m, fuel);
      if h.Ok? {
        var mid := more;
        ReadyOnward(sc, b, st, mid, base, pt);
        more := ArgsSafe(p, es[1..], tys[1..], sc, b, fuel, mid, base, pt);
        var t := W.EvalList(p, es[1..], b, mid.m, fuel);
        if t.Ok? {
          OnwardTrans(st, mid, more, base, pt);
          CoerceTyped(W.YieldOf(es[0], W.Plain(sc), W.SigsOf(p)), h.v.v, tys[0], mid, pt);
          TypedOnward(W.Coerce(h.v.v, tys[0]), tys[0], mid, more, base, pt);
          assert ([h.v.v] + t.v.vs)[1..] == t.v.vs;
        }
      }
    }
  }

  /** What is known of the function that a checked call reaches. */
  lemma {:induction false} CalleeSafe(p: W.Program, f: string, pt: Pointers)
    requires Sound(p, pt) && f in W.SigsOf(p)
    ensures W.FindDef(p, f).Some?
    ensures var fn := W.FindDef(p, f).value;
            W.SigsOf(p)[f].ret == fn.ret && W.SigsOf(p)[f].params == W.EntryTypes(fn.params) &&
            W.FnOk(fn, W.SigsOf(p)) && FnIn(fn, pt)
  {
    hide W.FnOk, FnIn;
    Linking.SigsAgree(p, f);
    var k := Linking.FindDefAt(p, f);
  }

  lemma {:induction false} CallSafe(p: W.Program, e: W.Expr, sc: W.Scope, b: W.Bindings, fuel: nat, st: Cells,
          base: nat, pt: Pointers)
    returns (more: Cells)
    requires e.CallFn? && Sound(p, pt) && W.ExprOk(e, sc, W.SigsOf(p)) && ExprIn(e, pt) && Ready(sc, b, st, base, pt)
    ensures SafeExpr(W.EvalExpr(p, e, b, st.m, fuel), W.YieldOf(e, W.Plain(sc), W.SigsOf(p)), st, more, base, pt)
    decreases fuel, e, 0
  {
    hide Sound, Ready, Onward, W.SigsOf, W.Plain, W.RunFn, W.EvalList, W.FnOk, W.FitAll, W.FindDef, AllTyped, Typed,
      W.CoerceAll, Good, ListIn;
    CalleeSafe(p, e.f, pt);
    var fn := W.FindDef(p, e.f).value;
    var tys := W.EntryTypes(fn.params);
    more := ArgsSafe(p, e.args, tys, sc, b, fuel, st, base, pt);
    var a := W.EvalList(p, e.args, b, st.m, fuel);
    if a.Ok? {
      var mid := more;
      var vs := W.CoerceAll(a.v.vs, tys);
      AllTypedFit(vs, tys, mid, pt);
      ReadyOnward(sc, b, st, mid, base, pt);
      ReadyGood(sc, b, mid, base, pt);
      if fuel > 0 {
        more := RunSafe(p, fn, vs, fuel - 1, mid, pt);
        if W.RunFn(p, fn, vs, mid.m, fuel - 1).Ok? {
          OnwardBelow(mid, more, |mid.m|, base, pt);
          OnwardTrans(st, mid, more, base, pt);
          NumberTyped(more, pt);
        }
      }
    }
  }

  // ---------- functions ----------

  /** How a call ends: with a value of the return type, or at a tolerated fault. */
  ghost predicate SafeRun(r: W.Res<W.ValMem>, ret: TypeRef, st: Cells, more: Cells, pt: Pointers) {
    match r
    case Ok(x) =>
      x.mem == more.m && Onward(st, more, |st.m|, pt) &&
      (if ret.Void? then x.v == Int(0) else Storable(ret, pt) && Typed(x.v, ret, more, pt))
    case Stuck(c) => Tolerated(c, pt)
    case Timeout => true
  }

  /** The parameters in their cells. */
  lemma {:induction false} EntrySafe(fn: W.FnDef, vs: seq<Value>, st: Cells, pt: Pointers)
    requires FnIn(fn, pt) && AllTyped(vs, W.EntryTypes(fn.params), st, pt) && Good(st, pt)
    ensures var mid := Cells(st.m + vs, st.lay + W.EntryTypes(fn.params));
            Onward(st, mid, |st.m|, pt) &&
            Ready(W.ParamScope(fn.params), W.ParamBindings(fn.params, |st.m|), mid, |st.m|, pt)
  {
    hide Matches, FnIn, Typed, W.ParamScope;
    PushTyped(st, vs, W.EntryTypes(fn.params), |st.m|, pt);
    ParamCells(fn, |st.m|, st.lay, st.lay + W.EntryTypes(fn.params), pt);
  }

  lemma {:induction false} ParamCells(fn: W.FnDef, base: nat, lay: Layout, mid: Layout, pt: Pointers)
    requires FnIn(fn, pt) && base == |lay| && mid == lay + W.EntryTypes(fn.params)
    ensures Matches(W.ParamScope(fn.params), W.ParamBindings(fn.params, base), mid, pt)
  {
    hide Storable, ListIn, Matches, W.ParamScope, W.ParamBindings;
    var tys := W.EntryTypes(fn.params);
    forall k | 0 <= k < |fn.params| ensures mid[base + k] == fn.params[k].ty {
      assert mid[base + k] == tys[k];
    }
    MatchesParams(fn.params, base, mid, pt);
  }

  lemma {:induction false} RunMeans(p: W.Program, fn: W.FnDef, vs: seq<Value>, m: Memory, fuel: nat)
    ensures W.RunFn(p, fn, vs, m, fuel) ==
            W.Retired(W.Result(fn.ret, W.ExecList(p, fn.body, W.ParamBindings(fn.params, |m|), m + vs, fuel)), |m|)
  {
    hide W.ExecList, W.Result;
  }

  lemma {:induction false} FnMeans(fn: W.FnDef, sigs: W.Sigs, pt: Pointers)
    requires W.FnOk(fn, sigs) && FnIn(fn, pt)
    ensures ListIn(fn.body, pt) && (fn.ret.Void? || MayLeave(fn.ret, pt))
    ensures var c := W.CheckList(fn.body, W.ParamScope(fn.params), sigs, fn.ret);
            c.Some? &&
            (W.ListExits(fn.body) || fn.ret.Void? || c.value.last.None? || W.Converts(c.value.last.value, fn.ret))
  {
  }

  /** A run of a function on arguments of its parameter types. */
  lemma {:induction false} RunSafe(p: W.Program, fn: W.FnDef, vs: seq<Value>, fuel: nat, st: Cells, pt: Pointers)
    returns (more: Cells)
    requires Sound(p, pt) && W.FnOk(fn, W.SigsOf(p)) && FnIn(fn, pt)
    requires AllTyped(vs, W.EntryTypes(fn.params), st, pt) && Good(st, pt)
    ensures SafeRun(W.RunFn(p, fn, vs, st.m, fuel), fn.ret, st, more, pt)
    decreases fuel, fn.body, 1
  {
    hide *;
    var sc, b := W.ParamScope(fn.params), W.ParamBindings(fn.params, |st.m|);
    var tys := W.EntryTypes(fn.params);
    FnMeans(fn, W.SigsOf(p), pt);
    EntrySafe(fn, vs, st, pt);
    var last := ListSafe(p, fn.body, sc, b, fuel, Cells(st.m + vs, st.lay + tys), |st.m|, fn.ret, pt);
    var r := W.ExecList(p, fn.body, b, st.m + vs, fuel);
    if r.Ok? && r.v.Next? && W.ListExits(fn.body) {
      ListExitsLeave(p, fn.body, b, st.m + vs, fuel);
    }
    RunMeans(p, fn, vs, st.m, fuel);
    AllTypedSize(vs, tys, st, pt);
    more := ResultSafe(r, W.CheckList(fn.body, sc, W.SigsOf(p), fn.ret).value, fn.ret, st, vs, tys, last, pt);
  }

  lemma {:induction false} AllTypedSize(vs: seq<Value>, tys: seq<TypeRef>, st: Cells, pt: Pointers)
    requires AllTyped(vs, tys, st, pt)
    ensures |vs| == |tys|
  {
  }

  lemma {:induction false} ResultSafe(r: W.Res<W.Flow>, c: W.Checked, ret: TypeRef, st: Cells, vs: seq<Value>,
          tys: seq<TypeRef>, last: Cells, pt: Pointers)
    returns (more: Cells)
    requires Good(st, pt) && |vs| == |tys| && (ret.Void? || MayLeave(ret, pt))
    requires SafeFlow(r, c, ret, Cells(st.m + vs, st.lay + tys), last, |st.m|, pt)
    requires r.Ok? && r.v.Next? ==> ret.Void? || c.last.None? || W.Converts(c.last.value, ret)
    ensures SafeRun(W.Retired(W.Result(ret, r), |st.m|), ret, st, more, pt)
  {
    hide Ready, Good, Onward, Typed, W.Left, W.Converts, Storable;
    more := Cells(Retire(last.m, |st.m|), last.lay);
    if r.Ok? {
      RetireTyped(st, vs, tys, last, pt);
      if r.v.Next? {
        LeftTyped(c.last, r.v.last, ret, last, pt);
      }
      if !ret.Void? {
        var v := if r.v.Returned? then r.v.v else W.Left(r.v.last, ret).value;
        TypedFits(v, ret, last, pt);
        EscapeTyped(v, ret, last, more, pt);
      }
    }
  }

  /** What leaves a call is typed without the cells that die. */
  lemma {:induction false} EscapeTyped(v: Value, ty: TypeRef, st: Cells, more: Cells, pt: Pointers)
    requires Typed(v, ty, st, pt) && MayLeave(ty, pt) && more.lay == st.lay
    ensures Typed(v, ty, more, pt) && Storable(ty, pt)
  {
  }

  lemma {:induction false} LeftTyped(y: Option<W.Yield>, last: Option<Value>, ret: TypeRef, st: Cells, pt: Pointers)
    requires LastTyped(y, last, st, pt) && (ret.Void? || MayLeave(ret, pt))
    requires ret.Void? || y.None? || W.Converts(y.value, ret)
    ensures ret.Void? || (W.Left(last, ret).Some? && Typed(W.Left(last, ret).value, ret, st, pt))
  {
    if !ret.Void? && last.Some? {
      CoerceTyped(y.value, last.value, ret, st, pt);
    }
  }

  // ---------- statements ----------

  predicate LastTyped(y: Option<W.Yield>, last: Option<Value>, st: Cells, pt: Pointers) {
    (y.Some? <==> last.Some?) && (y.Some? ==> Yields(y.value, last.value, st, pt))
  }

  ghost predicate SafeFlow(r: W.Res<W.Flow>, c: W.Checked, ret: TypeRef, st: Cells, more: Cells, base: nat,
          pt: Pointers)
  {
    match r
    case Ok(f) =>
      f.mem == more.m && Onward(st, more, base, pt) &&
      (match f
       case Returned(v, _) => ret.Void? || Typed(v, ret, more, pt)
       case Next(last, b, _) => Ready(c.sc, b, more, base, pt) && LastTyped(c.last, last, more, pt))
    case Stuck(c) => Tolerated(c, pt)
    case Timeout => true
  }

  /** A flow that starts later. */
  lemma {:induction false} FlowTrans(r: W.Res<W.Flow>, c: W.Checked, ret: TypeRef, st: Cells, mid: Cells, more: Cells,
          base: nat, pt: Pointers)
    requires SafeFlow(r, c, ret, mid, more, base, pt) && Onward(st, mid, base, pt)
    ensures SafeFlow(r, c, ret, st, more, base, pt)
  {
    hide Ready, Onward, LastTyped, Typed;
    if r.Ok? {
      OnwardTrans(st, mid, more, base, pt);
    }
  }

  lemma {:induction false} StmtSafe(p: W.Program, s: W.Stmt, sc: W.Scope, b: W.Bindings, fuel: nat, st: Cells,
          base: nat, ret: TypeRef, pt: Pointers)
    returns (more: Cells)
    requires Sound(p, pt) && W.CheckStmt(s, sc, W.SigsOf(p), ret).Some? && StmtIn(s, pt) && Ready(sc, b, st, base, pt)
    ensures SafeFlow(W.ExecStmt(p, s, b, st.m, fuel), W.CheckStmt(s, sc, W.SigsOf(p), ret).value, ret, st, more, base,
                     pt)
    decreases fuel, s, 2
  {
    hide Sound, Ready, Onward, W.SigsOf, W.Plain, W.EvalExpr, W.ExprOk, ExprIn, W.ExprType, W.IsZero, W.Close, Typed,
      Good, Storable;
    more := st;
    ReadyGood(sc, b, st, base, pt);
    match s
    case Nop =>
    case Return(e) =>
      more := EvalSafe(p, e, sc, b, fuel, st, base, pt);
    case Eval(e) =>
      more := EvalSafe(p, e, sc, b, fuel, st, base, pt);
      if W.EvalExpr(p, e, b, st.m, fuel).Ok? {
        ReadyOnward(sc, b, st, more, base, pt);
      }
    case StoreTo(_, _, _) => more := StoreSafe(p, s, sc, b, fuel, st, base, ret, pt);
    case Let(_, _, _, _) => more := LetSafe(p, s, sc, b, fuel, st, base, ret, pt);
    case Set(_, _) => more := SetSafe(p, s, sc, b, fuel, st, base, ret, pt);
    case Do(ss) => more := ListSafe(p, ss, sc, b, fuel, st, base, ret, pt);
    case If(_, _, _) => more := IfSafe(p, s, sc, b, fuel, st, base, ret, pt);
    case While(_, _) => more := WhileSafe(p, s, sc, b, fuel, st, base, ret, pt);
  }

  /** Assigning to a variable in scope cannot fail. */
  lemma {:induction false} SetSafe(p: W.Program, s: W.Stmt, sc: W.Scope, b: W.Bindings, fuel: nat, st: Cells,
          base: nat, ret: TypeRef, pt: Pointers)
    returns (more: Cells)
    requires s.Set? && Sound(p, pt) && W.CheckStmt(s, sc, W.SigsOf(p), ret).Some? && StmtIn(s, pt)
    requires Ready(sc, b, st, base, pt)
    ensures SafeFlow(W.ExecStmt(p, s, b, st.m, fuel), W.CheckStmt(s, sc, W.SigsOf(p), ret).value, ret, st, more, base,
                     pt)
    decreases fuel, s, 1
  {
    hide Sound, Ready, Onward, W.SigsOf, W.Plain, W.EvalExpr, W.ExprOk, ExprIn, W.ExprType, W.IsZero, Typed, Good,
      Storable, Find, Write;
    more := EvalSafe(p, s.e, sc, b, fuel, st, base, pt);
    var r := W.EvalExpr(p, s.e, b, st.m, fuel);
    if r.Ok? {
      var mid := more;
      ReadyOnward(sc, b, st, mid, base, pt);
      ReadyGood(sc, b, mid, base, pt);
      VarReady(sc, b, mid, base, pt, s.x);
      var v := W.Lookup(b, s.x).value;
      WriteTyped(mid, Pointer(v.loc), v.ty, r.v.v, base, pt);
      LiveAccess(mid.m, v.loc);
      more := Cells(Write(mid.m, Pointer(v.loc), v.ty, r.v.v).value, mid.lay);
      ReadyOnward(sc, b, mid, more, base, pt);
      OnwardTrans(st, mid, more, base, pt);
    }
  }

  lemma {:induction false} LiveAccess(m: Memory, loc: nat)
    requires loc < |m| && !m[loc].Dead?
    ensures W.AccessFault(Pointer(loc), m).Confusion?
  {
  }

  lemma {:induction false} StoreSafe(p: W.Program, s: W.Stmt, sc: W.Scope, b: W.Bindings, fuel: nat, st: Cells,
          base: nat, ret: TypeRef, pt: Pointers)
    returns (more: Cells)
    requires s.StoreTo? && Sound(p, pt) && W.CheckStmt(s, sc, W.SigsOf(p), ret).Some? && StmtIn(s, pt)
    requires Ready(sc, b, st, base, pt)
    ensures SafeFlow(W.ExecStmt(p, s, b, st.m, fuel), W.CheckStmt(s, sc, W.SigsOf(p), ret).value, ret, st, more, base,
                     pt)
    decreases fuel, s, 1
  {
    hide Sound, Ready, Onward, W.SigsOf, W.Plain, W.EvalExpr, W.ExprOk, ExprIn, W.ExprType, W.IsZero, Typed, Good,
      Write, W.Coerce, W.Converts, Storable, W.AccessFault;
    more := EvalSafe(p, s.p, sc, b, fuel, st, base, pt);
    var a := W.EvalExpr(p, s.p, b, st.m, fuel);
    if a.Ok? {
      var mid := more;
      ReadyOnward(sc, b, st, mid, base, pt);
      more := EvalSafe(p, s.e, sc, b, fuel, mid, base, pt);
      var r := W.EvalExpr(p, s.e, b, mid.m, fuel);
      if r.Ok? {
        var high := more;
        var v := W.Coerce(r.v.v, s.ty);
        OnwardTrans(st, mid, high, base, pt);
        ReadyOnward(sc, b, mid, high, base, pt);
        ReadyGood(sc, b, high, base, pt);
        CoerceTyped(W.YieldOf(s.e, W.Plain(sc), W.SigsOf(p)), r.v.v, s.ty, high, pt);
        TypedOnward(a.v.v, Ptr(s.ty), mid, high, base, pt);
        WriteTyped(high, a.v.v, s.ty, v, base, pt);
        if Write(high.m, a.v.v, s.ty, v).Some? {
          more := Cells(Write(high.m, a.v.v, s.ty, v).value, high.lay);
          ReadyOnward(sc, b, high, more, base, pt);
          OnwardTrans(st, high, more, base, pt);
        }
      }
    }
  }

  lemma {:induction false} LetSafe(p: W.Program, s: W.Stmt, sc: W.Scope, b: W.Bindings, fuel: nat, st: Cells,
          base: nat, ret: TypeRef, pt: Pointers)
    returns (more: Cells)
    requires s.Let? && Sound(p, pt) && W.CheckStmt(s, sc, W.SigsOf(p), ret).Some? && StmtIn(s, pt)
    requires Ready(sc, b, st, base, pt)
    ensures SafeFlow(W.ExecStmt(p, s, b, st.m, fuel), W.CheckStmt(s, sc, W.SigsOf(p), ret).value, ret, st, more, base,
                     pt)
    decreases fuel, s, 1
  {
    hide Sound, Ready, Onward, W.SigsOf, W.Plain, W.EvalExpr, W.ExprOk, ExprIn, W.ExprType, W.IsZero, Typed, Good,
      W.ExecList, W.CheckList, Read, Fits, Storable, W.AccessFault, W.Initial;
    var sigs := W.SigsOf(p);
    var e := Entry(s.x, s.ty);
    more := EvalSafe(p, s.e, sc, b, fuel, st, base, pt);
    var r := W.EvalExpr(p, s.e, b, st.m, fuel);
    if r.Ok? {
      var mid := more;
      var t := W.ExprType(s.e, W.Plain(sc), sigs);
      ReadyOnward(sc, b, st, mid, base, pt);
      ReadyGood(sc, b, mid, base, pt);
      ReadyTypes(s.e, sc, b, mid, base, pt, sigs);
      InitialSafe(t, s.ty, r.v.v, mid, pt);
      var w := W.Initial(r.v.v, t, s.ty, mid.m);
      if w.Some? {
        ReadyPush(sc, b, mid, e, w.value, base, pt);
        var high := Cells(mid.m + [w.value], mid.lay + [s.ty]);
        OnwardTrans(st, mid, high, base, pt);
        more := ListSafe(p, s.rest, sc + [W.Seen(e, true)], b + [W.Binding(s.x, s.ty, |mid.m|)], fuel, high, base, ret,
                         pt);
        FlowTrans(W.ExecStmt(p, s, b, st.m, fuel), W.CheckStmt(s, sc, sigs, ret).value, ret, st, high, more, base, pt);
      }
    }
  }

  lemma {:induction false} ReadyTypes(e: W.Expr, sc: W.Scope, b: W.Bindings, st: Cells, base: nat, pt: Pointers,
          sigs: W.Sigs)
    requires Ready(sc, b, st, base, pt) && W.ExprOk(e, sc, sigs)
    ensures W.ExprType(e, W.Declared(b), sigs) == W.ExprType(e, W.Plain(sc), sigs)
  {
    hide Matches;
    StaticType(e, sc, b, st.lay, pt, sigs);
  }

  lemma {:induction false} InitialSafe(t: TypeRef, ty: TypeRef, v: Value, st: Cells, pt: Pointers)
    requires (t == ty || t == Ptr(ty)) && Storable(t, pt) && Storable(ty, pt) && Typed(v, t, st, pt) && Good(st, pt)
    ensures var w := W.Initial(v, t, ty, st.m);
            if w.Some? then Typed(w.value, ty, st, pt) else t == Ptr(ty) && Tolerated(W.AccessFault(v, st.m), pt)
  {
    hide Good, Typed, Read;
    if t == Ptr(ty) {
      ReadTyped(st, v, ty, pt);
    } else {
      TypedFits(v, ty, st, pt);
    }
  }

  /** A finished branch or loop body: the variables in scope are those before it. */
  lemma {:induction false} LeavingSafe(p: W.Program, s: W.Stmt, sc: W.Scope, from: W.Scope, after: W.Scope,
          b: W.Bindings, fuel: nat, st: Cells, more: Cells, base: nat, ret: TypeRef, pt: Pointers)
    requires W.CheckStmt(s, from, W.SigsOf(p), ret).Some? && Extends(sc, after) && Ready(sc, b, st, base, pt)
    requires SafeFlow(W.ExecStmt(p, s, b, st.m, fuel), W.CheckStmt(s, from, W.SigsOf(p), ret).value, ret, st, more,
                      base, pt)
    ensures var r := W.Leaving(W.ExecStmt(p, s, b, st.m, fuel), |b|);
            SafeFlow(r, W.Checked(W.Close(after, |sc|), None), ret, st, more, base, pt) &&
            (r.Ok? && r.v.Next? ==> r.v.b == b && r.v.mem == more.m && Ready(sc, b, more, base, pt))
  {
    hide Ready, Onward, W.SigsOf, W.ExecStmt, W.CheckStmt, W.Close, Extends, Typed, Yields;
    ExecExtends(p, s, b, st.m, fuel);
    var q := W.ExecStmt(p, s, b, st.m, fuel);
    if q.Ok? && q.v.Next? {
      ReadyOnward(sc, b, st, more, base, pt);
      ReadyClose(sc, after, b, more, base, pt);
    }
  }

  /** A test yields a number. */
  lemma {:induction false} TestSafe(p: W.Program, c: W.Expr, sc: W.Scope, b: W.Bindings, fuel: nat, st: Cells,
          base: nat, pt: Pointers)
    returns (more: Cells)
    requires Sound(p, pt) && W.ExprOk(c, sc, W.SigsOf(p)) && ExprIn(c, pt) && Ready(sc, b, st, base, pt)
    requires W.Converts(W.YieldOf(c, W.Plain(sc), W.SigsOf(p)), I32)
    ensures var r := W.Coerced(W.EvalExpr(p, c, b, st.m, fuel), I32);
            match r
            case Ok(x) => x.v.Int? && x.mem == more.m && Onward(st, more, base, pt) && Ready(sc, b, more, base, pt)
            case Stuck(c) => Tolerated(c, pt)
            case Timeout => true
    decreases fuel, c, 2
  {
    hide Sound, Ready, Onward, W.SigsOf, W.Plain, W.EvalExpr, W.ExprOk, ExprIn, W.YieldOf, W.Converts, Typed,
      W.Coerce;
    more := EvalSafe(p, c, sc, b, fuel, st, base, pt);
    var r := W.EvalExpr(p, c, b, st.m, fuel);
    if r.Ok? {
      CoerceTyped(W.YieldOf(c, W.Plain(sc), W.SigsOf(p)), r.v.v, I32, more, pt);
      TypedFits(W.Coerce(r.v.v, I32), I32, more, pt);
      ReadyOnward(sc, b, st, more, base, pt);
    }
  }

  lemma {:induction false} IfSafe(p: W.Program, s: W.Stmt, sc: W.Scope, b: W.Bindings, fuel: nat, st: Cells,
          base: nat, ret: TypeRef, pt: Pointers)
    returns (more: Cells)
    requires s.If? && Sound(p, pt) && W.CheckStmt(s, sc, W.SigsOf(p), ret).Some? && StmtIn(s, pt)
    requires Ready(sc, b, st, base, pt)
    ensures SafeFlow(W.ExecStmt(p, s, b, st.m, fuel), W.CheckStmt(s, sc, W.SigsOf(p), ret).value, ret, st, more, base,
                     pt)
    decreases fuel, s, 1
  {
    hide Sound, Ready, Onward, W.SigsOf, W.Plain, W.EvalExpr, W.ExprOk, ExprIn, W.Converts, W.YieldOf, W.Close,
      Extends, W.Leaving, W.Coerced, Typed, LastTyped;
    var sigs := W.SigsOf(p);
    var t := W.CheckStmt(s.thn, sc, sigs, ret).value.sc;
    var sc1 := W.Close(t, |sc|);
    var f := W.CheckStmt(s.els, sc1, sigs, ret).value.sc;
    CheckExtends(s.thn, sc, sigs, ret);
    CloseKeeps(sc, t);
    CheckExtends(s.els, sc1, sigs, ret);
    ExtendsTrans(sc, sc1, f);
    more := TestSafe(p, s.cond, sc, b, fuel, st, base, pt);
    var r := W.Coerced(W.EvalExpr(p, s.cond, b, st.m, fuel), I32);
    if r.Ok? {
      var mid := more;
      if r.v.v.n != 0 {
        more := StmtSafe(p, s.thn, sc, b, fuel, mid, base, ret, pt);
        LeavingSafe(p, s.thn, sc, sc, f, b, fuel, mid, more, base, ret, pt);
      } else {
        ReadyClose(sc, t, b, mid, base, pt);
        more := StmtSafe(p, s.els, sc1, b, fuel, mid, base, ret, pt);
        LeavingSafe(p, s.els, sc, sc1, f, b, fuel, mid, more, base, ret, pt);
      }
      FlowTrans(W.ExecStmt(p, s, b, st.m, fuel), W.CheckStmt(s, sc, sigs, ret).value, ret, st, mid, more, base, pt);
    }
  }

  lemma {:induction false} WhileSafe(p: W.Program, s: W.Stmt, sc: W.Scope, b: W.Bindings, fuel: nat, st: Cells,
          base: nat, ret: TypeRef, pt: Pointers)
    returns (more: Cells)
    requires s.While? && Sound(p, pt) && W.CheckStmt(s, sc, W.SigsOf(p), ret).Some? && StmtIn(s, pt)
    requires Ready(sc, b, st, base, pt)
    ensures SafeFlow(W.ExecStmt(p, s, b, st.m, fuel), W.CheckStmt(s, sc, W.SigsOf(p), ret).value, ret, st, more, base,
                     pt)
    decreases fuel, s, 1
  {
    hide Sound, Ready, Onward, W.SigsOf, W.Plain, W.EvalExpr, W.ExprOk, ExprIn, W.Converts, W.YieldOf, W.Close,
      Extends, W.Leaving, W.Coerced, Typed;
    var sigs := W.SigsOf(p);
    var c := W.CheckStmt(s.body, sc, sigs, ret).value.sc;
    var whole := W.CheckStmt(s, sc, sigs, ret).value;
    CheckExtends(s.body, sc, sigs, ret);
    more := TestSafe(p, s.cond, sc, b, fuel, st, base, pt);
    var r := W.Coerced(W.EvalExpr(p, s.cond, b, st.m, fuel), I32);
    if r.Ok? {
      var mid := more;
      ReadyClose(sc, c, b, mid, base, pt);
      if r.v.v.n != 0 {
        more := StmtSafe(p, s.body, sc, b, fuel, mid, base, ret, pt);
        LeavingSafe(p, s.body, sc, sc, c, b, fuel, mid, more, base, ret, pt);
        var q := W.Leaving(W.ExecStmt(p, s.body, b, mid.m, fuel), |b|);
        FlowTrans(q, whole, ret, st, mid, more, base, pt);
        if q.Ok? && q.v.Next? && fuel > 0 {
          var again := StmtSafe(p, s, sc, b, fuel - 1, more, base, ret, pt);
          FlowTrans(W.ExecStmt(p, s, b, more.m, fuel - 1), whole, ret, st, more, again, base, pt);
          more := again;
        }
      }
    }
  }

  lemma {:induction false} ListSafe(p: W.Program, ss: seq<W.Stmt>, sc: W.Scope, b: W.Bindings, fuel: nat, st: Cells,
          base: nat, ret: TypeRef, pt: Pointers)
    returns (more: Cells)
    requires Sound(p, pt) && W.CheckList(ss, sc, W.SigsOf(p), ret).Some? && ListIn(ss, pt) && Ready(sc, b, st, base, pt)
    ensures SafeFlow(W.ExecList(p, ss, b, st.m, fuel), W.CheckList(ss, sc, W.SigsOf(p), ret).value, ret, st, more, base,
                     pt)
    decreases fuel, ss, 0
  {
    hide Sound, Ready, Onward, W.SigsOf, W.ExecStmt, W.CheckStmt, StmtIn, W.Exits, Typed, Yields;
    var sigs := W.SigsOf(p);
    more := st;
    ReadyGood(sc, b, st, base, pt);
    if ss != [] {
      more := StmtSafe(p, ss[0], sc, b, fuel, st, base, ret, pt);
      var h := W.ExecStmt(p, ss[0], b, st.m, fuel);
      if h.Ok? && h.v.Next? {
        if W.Exits(ss[0]) {
          ExitsLeave(p, ss[0], b, st.m, fuel);
        } else {
          var mid := more;
          var c := W.CheckStmt(ss[0], sc, sigs, ret).value;
          more := ListSafe(p, ss[1..], c.sc, h.v.b, fuel, mid, base, ret, pt);
          var t := W.ExecList(p, ss[1..], h.v.b, mid.m, fuel);
          if t.Ok? {
            OnwardTrans(st, mid, more, base, pt);
            LastOnward(c.last, h.v.last, mid, more, base, pt);
          }
        }
      }
    }
  }

  lemma {:induction false} LastOnward(y: Option<W.Yield>, last: Option<Value>, st: Cells, more: Cells, base: nat,
          pt: Pointers)
    requires LastTyped(y, last, st, pt) && Onward(st, more, base, pt)
    ensures LastTyped(y, last, more, pt)
  {
    hide Onward, Typed;
    if y.Some? {
      TypedOnward(last.value, y.value.ty, st, more, base, pt);
    }
  }

  // ---------- programs ----------

  /** A call in the source gets stuck for the given reason. */
  ghost predicate SourceFaults(p: W.Program, fn: W.FnDef, args: seq<Value>, mem: Memory, c: W.Fault) {
    exists fuel: nat :: W.RunFn(p, fn, args, mem, fuel) == W.Stuck(c)
  }

  /** Well-typed programs do not go wrong: for every program that obeys the rules and whose
      types have values, every function, and arguments and memory of fitting types, the
      emitted code gets stuck if and only if the source divides by zero, overflows a
      quotient, accesses the null pointer, or a variable of a call that has returned. */
  lemma {:induction false} StuckOnlyOnFaults(p: W.Program, t: nat, l: nat, f: string, args: seq<Value>, st: Cells)
    requires W.ProgramOk(p) && ProgramIn(p, Free) && W.FindDef(p, f).Some?
    requires AllTyped(args, W.EntryTypes(W.FindDef(p, f).value.params), st, Free) && Good(st, Free)
    ensures var m := GenModule(p, W.SigsOf(p), t, l).m;
            var fn := W.FindDef(p, f).value;
            FindFn(m, f).Some? &&
            (Reaches(m, Enter(FindFn(m, f).value, args, [], st.m), Wrong) <==>
             SourceFaults(p, fn, args, st.m, W.Division) || SourceFaults(p, fn, args, st.m, W.NullAccess) ||
             SourceFaults(p, fn, args, st.m, W.Dangling))
  {
    WrongIsFault(p, t, l, f, args, st, Free);
  }

  /** If no function returns a pointer and none is stored through another, the last cannot
      happen, provided that the pointers at hand lead to live cells. */
  lemma {:induction false} ConfinedNeverDangles(p: W.Program, t: nat, l: nat, f: string, args: seq<Value>, st: Cells)
    requires W.ProgramOk(p) && ProgramIn(p, Confined) && W.FindDef(p, f).Some?
    requires AllTyped(args, W.EntryTypes(W.FindDef(p, f).value.params), st, Confined) && Good(st, Confined)
    ensures var m := GenModule(p, W.SigsOf(p), t, l).m;
            var fn := W.FindDef(p, f).value;
            FindFn(m, f).Some? && !SourceFaults(p, fn, args, st.m, W.Dangling) &&
            (Reaches(m, Enter(FindFn(m, f).value, args, [], st.m), Wrong) <==>
             SourceFaults(p, fn, args, st.m, W.Division) || SourceFaults(p, fn, args, st.m, W.NullAccess))
  {
    WrongIsFault(p, t, l, f, args, st, Confined);
  }

  /** A program that declares no pointers, takes no address, and neither loads nor stores,
      gets stuck on divisions only, whatever its arguments and the memory. */
  lemma {:induction false} StuckOnlyOnDivision(p: W.Program, t: nat, l: nat, f: string, args: seq<Value>, mem: Memory)
    requires W.ProgramOk(p) && ProgramIn(p, Absent) && W.FindDef(p, f).Some?
    requires W.FitAll(args, W.EntryTypes(W.FindDef(p, f).value.params))
    ensures var m := GenModule(p, W.SigsOf(p), t, l).m;
            FindFn(m, f).Some? &&
            (Reaches(m, Enter(FindFn(m, f).value, args, [], mem), Wrong) <==>
             SourceFaults(p, W.FindDef(p, f).value, args, mem, W.Division))
  {
    hide Reaches, SourceFaults, W.SigsOf, GenModule, Enter;
    var st := Cells(mem, seq(|mem|, _ => Void));
    var fn := W.FindDef(p, f).value;
    var k := Linking.FindDefAt(p, f);
    forall i | 0 <= i < |args| ensures Typed(args[i], W.EntryTypes(fn.params)[i], st, Absent) {
      assert Fits(args[i], W.EntryTypes(fn.params)[i]) && FnIn(p[k], Absent);
    }
    WrongIsFault(p, t, l, f, args, st, Absent);
  }

  lemma {:induction false} WrongIsFault(p: W.Program, t: nat, l: nat, f: string, args: seq<Value>, st: Cells,
          pt: Pointers)
    requires Sound(p, pt) && W.FindDef(p, f).Some?
    requires AllTyped(args, W.EntryTypes(W.FindDef(p, f).value.params), st, pt) && Good(st, pt)
    ensures var m := GenModule(p, W.SigsOf(p), t, l).m;
            var fn := W.FindDef(p, f).value;
            FindFn(m, f).Some? &&
            (forall c :: SourceFaults(p, fn, args, st.m, c) ==> Tolerated(c, pt)) &&
            (Reaches(m, Enter(FindFn(m, f).value, args, [], st.m), Wrong) <==>
             exists c :: SourceFaults(p, fn, args, st.m, c))
  {
    hide Reaches, W.RunFn, W.SigsOf, GenModule, Enter, AllTyped, Good, W.FitAll, FnIn, W.FnOk, W.EntryTypes;
    var fn := W.FindDef(p, f).value;
    Linking.SigsAgree(p, f);
    CalleeSafe(p, f, pt);
    AllTypedFit(args, W.EntryTypes(fn.params), st, pt);
    CompilePreservesMeaning(p, t, l, f, args, st.m, Int(0), st.m);
    forall c | SourceFaults(p, fn, args, st.m, c) ensures Tolerated(c, pt) && SourceStuck(p, fn, args, st.m) {
      var fuel: nat :| W.RunFn(p, fn, args, st.m, fuel) == W.Stuck(c);
      var more := RunSafe(p, fn, args, fuel, st, pt);
    }
    if SourceStuck(p, fn, args, st.m) {
      var fuel: nat :| W.RunFn(p, fn, args, st.m, fuel).Stuck?;
      var c := W.RunFn(p, fn, args, st.m, fuel).why;
      assert W.RunFn(p, fn, args, st.m, fuel) == W.Stuck(c);
      assert SourceFaults(p, fn, args, st.m, c);
    }
  }
}
