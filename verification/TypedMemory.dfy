/** Memory in which every live cell holds a value of its type. */
module TypedMemory {
  import opened Wrappers
  import opened Types
  import opened Values
  import W = Weave

  /** How a program uses pointers: not at all; so that none outlives the call it was made in,
      because no function returns one and none is stored through another; or freely. */
  datatype Pointers = Absent | Confined | Free

  /** Types that have values: numbers, handles and pointers, where there are any. */
  predicate Storable(ty: TypeRef, pt: Pointers) {
    ty.I32? || ty.I8Ptr? || (!pt.Absent? && ty.Ptr?)
  }

  /** The type of each cell, dead or live.  A cell of a type without values may hold anything. */
  type Layout = seq<TypeRef>

  datatype Cells = Cells(m: Memory, lay: Layout)

  predicate HasType(v: Value, ty: TypeRef, lay: Layout) {
    match ty
    case I32 => v.Int?
    case I8Ptr => v.Pointer? || v.Null?
    case Ptr(t) => v.Null? || (v.Pointer? && v.loc < |lay| && lay[v.loc] == t)
    case _ => false
  }

  /** A pointer leads to a live cell. */
  predicate Leads(v: Value, m: Memory) {
    v.Pointer? ==> v.loc < |m| && !m[v.loc].Dead?
  }

  predicate Typed(v: Value, ty: TypeRef, st: Cells, pt: Pointers) {
    HasType(v, ty, st.lay) && (pt.Confined? && ty.Ptr? ==> Leads(v, st.m))
  }

  predicate AllTyped(vs: seq<Value>, tys: seq<TypeRef>, st: Cells, pt: Pointers) {
    |vs| == |tys| && forall k :: 0 <= k < |vs| ==> Typed(vs[k], tys[k], st, pt)
  }

  predicate Good(st: Cells, pt: Pointers) {
    |st.m| == |st.lay| &&
    forall k :: 0 <= k < |st.m| && Storable(st.lay[k], Free) && !st.m[k].Dead? ==> Typed(st.m[k], st.lay[k], st, pt)
  }

  /** What a function whose cells start at `base` may do to memory: it adds cells, kills none of
      those that were there, and, if pointers are confined, leaves those below `base` that hold
      pointers as they were. */
  predicate Later(st: Cells, more: Cells, base: nat, pt: Pointers) {
    |st.m| == |st.lay| && |st.m| <= |more.m| && st.lay <= more.lay &&
    (forall k :: 0 <= k < |st.m| && !st.m[k].Dead? ==> !more.m[k].Dead?) &&
    (pt.Confined? ==> forall k :: 0 <= k < base && k < |st.m| && st.lay[k].Ptr? ==> more.m[k] == st.m[k])
  }

  predicate Onward(st: Cells, more: Cells, base: nat, pt: Pointers) {
    Good(more, pt) && Later(st, more, base, pt)
  }

  lemma {:induction false} OnwardSelf(st: Cells, base: nat, pt: Pointers)
    requires Good(st, pt)
    ensures Onward(st, st, base, pt)
  {
  }

  lemma {:induction false} OnwardTrans(a: Cells, b: Cells, c: Cells, base: nat, pt: Pointers)
    requires Onward(a, b, base, pt) && Onward(b, c, base, pt)
    ensures Onward(a, c, base, pt)
  {
    hide Good;
    forall k | 0 <= k < |a.m| ensures a.lay[k] == b.lay[k] {
    }
  }

  /** A callee starts behind all cells. */
  lemma {:induction false} OnwardBelow(st: Cells, more: Cells, high: nat, base: nat, pt: Pointers)
    requires Onward(st, more, high, pt) && base <= high
    ensures Onward(st, more, base, pt)
  {
    hide Good;
  }

  lemma {:induction false} TypedOnward(v: Value, ty: TypeRef, st: Cells, more: Cells, base: nat, pt: Pointers)
    requires Typed(v, ty, st, pt) && Onward(st, more, base, pt)
    ensures Typed(v, ty, more, pt)
  {
    hide Good;
  }

  lemma {:induction false} AllTypedOnward(vs: seq<Value>, tys: seq<TypeRef>, st: Cells, more: Cells, base: nat,
          pt: Pointers)
    requires AllTyped(vs, tys, st, pt) && Onward(st, more, base, pt)
    ensures AllTyped(vs, tys, more, pt)
  {
    hide Onward, Typed;
    forall k | 0 <= k < |vs| ensures Typed(vs[k], tys[k], more, pt) {
      TypedOnward(vs[k], tys[k], st, more, base, pt);
    }
  }

  lemma {:induction false} TypedFits(v: Value, ty: TypeRef, st: Cells, pt: Pointers)
    requires Typed(v, ty, st, pt)
    ensures Fits(v, ty)
  {
  }

  lemma {:induction false} AllTypedFit(vs: seq<Value>, tys: seq<TypeRef>, st: Cells, pt: Pointers)
    requires AllTyped(vs, tys, st, pt)
    ensures W.FitAll(vs, tys)
  {
  }

  /** The conversions that stage0 makes yield values of the wanted type. */
  lemma {:induction false} CoerceTyped(y: W.Yield, v: Value, ty: TypeRef, st: Cells, pt: Pointers)
    requires W.Converts(y, ty) && Typed(v, y.ty, st, pt) && (y.zero ==> v == Int(0))
    ensures Typed(W.Coerce(v, ty), ty, st, pt)
  {
  }

  // ---------- accesses ----------

  /** Reading through a typed pointer fails at the null pointer and at a dead cell only, and at
      the latter only if pointers are free. */
  lemma {:induction false} ReadTyped(st: Cells, v: Value, ty: TypeRef, pt: Pointers)
    requires Good(st, pt) && Typed(v, Ptr(ty), st, pt) && Storable(ty, Free)
    ensures match Read(st.m, v, ty)
            case Some(w) => Typed(w, ty, st, pt)
            case None => W.AccessFault(v, st.m).NullAccess? || (!pt.Confined? && W.AccessFault(v, st.m).Dangling?)
  {
    if v.Pointer? && !st.m[v.loc].Dead? {
      TypedFits(st.m[v.loc], ty, st, pt);
    }
  }

  /** So does writing.  What is written keeps memory typed; pointers go into a cell from `base`
      on only. */
  lemma {:induction false} WriteTyped(st: Cells, p: Value, ty: TypeRef, v: Value, base: nat, pt: Pointers)
    requires Good(st, pt) && Typed(p, Ptr(ty), st, pt) && Typed(v, ty, st, pt)
    requires pt.Confined? && ty.Ptr? && p.Pointer? ==> base <= p.loc
    ensures match Write(st.m, p, ty, v)
            case Some(m) => Onward(st, Cells(m, st.lay), base, pt)
            case None => W.AccessFault(p, st.m).NullAccess? || (!pt.Confined? && W.AccessFault(p, st.m).Dangling?)
  {
    TypedFits(v, ty, st, pt);
    if p.Pointer? && !st.m[p.loc].Dead? {
      WriteGood(st, p.loc, ty, v, pt);
    }
  }

  lemma {:induction false} WriteGood(st: Cells, loc: nat, ty: TypeRef, v: Value, pt: Pointers)
    requires Good(st, pt) && loc < |st.m| && !st.m[loc].Dead? && st.lay[loc] == ty && Typed(v, ty, st, pt)
    ensures !v.Dead? && Good(Cells(st.m[loc := v], st.lay), pt)
  {
    var more := Cells(st.m[loc := v], st.lay);
    forall k | 0 <= k < |more.m| && Storable(more.lay[k], Free) && !more.m[k].Dead?
      ensures Typed(more.m[k], more.lay[k], more, pt)
    {
      assert Typed(more.m[k], more.lay[k], st, pt);
    }
  }

  /** New cells. */
  lemma {:induction false} PushTyped(st: Cells, vs: seq<Value>, tys: seq<TypeRef>, base: nat, pt: Pointers)
    requires Good(st, pt) && AllTyped(vs, tys, st, pt)
    ensures Onward(st, Cells(st.m + vs, st.lay + tys), base, pt)
    ensures forall k :: |st.m| <= k < |st.m| + |vs| ==> !(st.m + vs)[k].Dead?
  {
    var more := Cells(st.m + vs, st.lay + tys);
    forall k | 0 <= k < |more.m| && Storable(more.lay[k], Free) && !more.m[k].Dead?
      ensures Typed(more.m[k], more.lay[k], more, pt)
    {
      assert Typed(more.m[k], more.lay[k], st, pt);
    }
  }

  /** The end of a call that started on `st` with the arguments `vs`: its cells die, and what
      was there before still is typed and, where pointers are confined, leads to live cells. */
  lemma {:induction false} RetireTyped(st: Cells, vs: seq<Value>, tys: seq<TypeRef>, last: Cells, pt: Pointers)
    requires Good(st, pt) && |vs| == |tys|
    requires Onward(Cells(st.m + vs, st.lay + tys), last, |st.m|, pt)
    ensures Onward(st, Cells(Retire(last.m, |st.m|), last.lay), |st.m|, pt)
  {
    var mid := Cells(st.m + vs, st.lay + tys);
    var end := Cells(Retire(last.m, |st.m|), last.lay);
    forall k | 0 <= k < |st.m|
      ensures mid.m[k] == st.m[k] && mid.lay[k] == st.lay[k] == end.lay[k] && end.m[k] == last.m[k]
    {
    }
    forall k | 0 <= k < |end.m| && Storable(end.lay[k], Free) && !end.m[k].Dead?
      ensures Typed(end.m[k], end.lay[k], end, pt)
    {
      assert Typed(last.m[k], last.lay[k], last, pt);
      if pt.Confined? && end.lay[k].Ptr? {
        assert last.m[k] == mid.m[k] == st.m[k];
        assert Typed(st.m[k], st.lay[k], st, pt);
      }
    }
  }
}
