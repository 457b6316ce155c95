/** Which emitted function a call reaches, and how a function body starts and ends. */
module Linking {
  import opened Wrappers
  import opened Types
  import opened Values
  import opened Env
  import opened Ir
  import opened Gen
  import opened Blocks
  import opened Scoping
  import opened Machine
  import W = Weave

  /** Source and target: the emitted module, from whatever counters. */
  ghost predicate Linked(p: W.Program, m: Module) {
    W.ProgramOk(p) && exists t: nat, l: nat :: m == GenModule(p, W.SigsOf(p), t, l).m
  }

  lemma {:induction false} FindDefAt(p: W.Program, f: string) returns (k: nat)
    requires W.FindDef(p, f).Some?
    ensures k < |p| && W.FindDef(p, f) == Some(p[k]) && p[k].name == f
  {
    if p[0].name == f {
      k := 0;
    } else {
      var j := FindDefAt(p[1..], f);
      k := j + 1;
    }
  }

  lemma {:induction false} FindDefSome(p: W.Program, k: nat)
    requires k < |p|
    ensures W.FindDef(p, p[k].name).Some?
  {
    if p[0].name != p[k].name {
      FindDefSome(p[1..], k - 1);
    }
  }

  lemma {:induction false} SigsOfAt(p: W.Program, f: string)
    ensures f in W.SigsOf(p) <==> exists k :: 0 <= k < |p| && p[k].name == f
    ensures (forall i, j :: 0 <= i < j < |p| ==> p[i].name != p[j].name) ==>
              forall k :: 0 <= k < |p| && p[k].name == f ==> W.SigsOf(p)[f] == W.SigOf(p[k])
  {
    if p != [] {
      var q := p[..|p| - 1];
      SigsOfAt(q, f);
      assert forall k :: 0 <= k < |q| ==> q[k] == p[k];
      assert p[|p| - 1].name in W.SigsOf(p);
      if f in W.SigsOf(q) {
        var k :| 0 <= k < |q| && q[k].name == f;
        assert p[k].name == f;
      }
    }
  }

  /** With distinct names the signature table describes the function a call reaches. */
  lemma {:induction false} SigsAgree(p: W.Program, f: string)
    requires W.ProgramOk(p)
    ensures f in W.SigsOf(p) <==> W.FindDef(p, f).Some?
    ensures W.FindDef(p, f).Some? ==>
              var fn := W.FindDef(p, f).value;
              W.SigsOf(p)[f] == W.SigOf(fn) && W.FnOk(fn, W.SigsOf(p)) && fn.name == f
  {
    SigsOfAt(p, f);
    if W.FindDef(p, f).Some? {
      var k := FindDefAt(p, f);
    } else if f in W.SigsOf(p) {
      var k :| 0 <= k < |p| && p[k].name == f;
      FindDefSome(p, k);
    }
  }

  lemma {:induction false} FindGen(p: W.Program, sigs: W.Sigs, t: nat, l: nat, f: string) returns (t': nat, l': nat)
    requires W.FindDef(p, f).Some?
    ensures FindFn(GenModule(p, sigs, t, l).m, f) == Some(GenFn(W.FindDef(p, f).value, sigs, t', l').fn)
  {
    var g := GenFn(p[0], sigs, t, l);
    if p[0].name == f {
      t', l' := t, l;
    } else {
      t', l' := FindGen(p[1..], sigs, g.temp, g.lbl, f);
      assert GenModule(p, sigs, t, l).m[1..] == GenModule(p[1..], sigs, g.temp, g.lbl).m;
    }
  }

  /** A call of a defined function reaches its emitted code. */
  lemma {:induction false} CallTarget(p: W.Program, m: Module, f: string) returns (t: nat, l: nat)
    requires Linked(p, m) && W.FindDef(p, f).Some?
    ensures FindFn(m, f) == Some(GenFn(W.FindDef(p, f).value, W.SigsOf(p), t, l).fn)
  {
    var t0: nat, l0: nat :| m == GenModule(p, W.SigsOf(p), t0, l0).m;
    t, l := FindGen(p, W.SigsOf(p), t0, l0, f);
  }

  lemma {:induction false} ParamTypesAre(ps: seq<Entry>, env: seq<Entry>)
    ensures ParamTypes(GenParams(ps, env)) == W.EntryTypes(ps)
  {
    TypesPointwise(GenParams(ps, env));
  }

  lemma {:induction false} TypesPointwise(ps: seq<IrParam>)
    ensures |ParamTypes(ps)| == |ps| && forall k :: 0 <= k < |ps| ==> ParamTypes(ps)[k] == ps[k].ty
  {
    if ps != [] {
      TypesPointwise(ps[1..]);
    }
  }

  // ---------- the function header ----------

  ghost predicate DistinctNames(ps: seq<Entry>) {
    forall i, j :: 0 <= i < j < |ps| ==> ps[i].name != ps[j].name
  }

  lemma {:induction false} FindDistinct(ps: seq<Entry>, k: nat)
    requires DistinctNames(ps) && k < |ps|
    ensures Find(ps, ps[k].name) == k && SsaOf(ps, ps[k].name) == SsaName(ps[k].name, k)
  {
    FindIsLast(ps, ps[k].name);
  }

  lemma {:induction false} FindParamAt(ps: seq<IrParam>, k: nat)
    requires k < |ps| && forall i, j :: 0 <= i < j < |ps| ==> ps[i].name != ps[j].name
    ensures FindParam(ps, ps[k].name) == Some(k)
  {
    if k > 0 {
      assert ps[0].name != ps[k].name;
      FindParamAt(ps[1..], k - 1);
    }
  }

  /** The incoming value of parameter `k` has its own name. */
  lemma {:induction false} IncomingParam(ps: seq<Entry>, k: nat)
    requires DistinctNames(ps) && k < |ps|
    ensures FindParam(GenParams(ps, ps), SsaName(ps[k].name, k)) == Some(k)
  {
    var q := GenParams(ps, ps);
    forall i, j | 0 <= i < j < |q| ensures q[i].name != q[j].name {
      FindDistinct(ps, i);
      FindDistinct(ps, j);
      if q[i].name == q[j].name {
        SsaNamesDistinct(ps[i].name, i, ps[j].name, j);
      }
    }
    FindDistinct(ps, k);
    FindParamAt(q, k);
  }

  lemma {:induction false} HeaderLength(ps: seq<Entry>, env: seq<Entry>)
    ensures |GenHeader(ps, env)| == 2 * |ps|
  {
    if ps != [] {
      HeaderLength(ps[..|ps| - 1], env);
    }
  }

  /** The machine after the allocas and stores of the first `k` parameters. */
  ghost predicate HeaderDone(m: Module, fn: IrFn, ps: seq<Entry>, vs: seq<Value>, callers: seq<Frame>, mem: Memory,
          k: nat, fr: Frame)
    requires k <= |ps| && k <= |vs|
  {
    Iter(m, Enter(fn, vs, callers, mem), 2 * k) == Running(fr, callers, mem + vs[..k]) &&
    fr == Frame(fn, 2 * k, map[], fr.slots, vs, |mem|) && ParamsPlaced(ps, |mem|, k, fr.slots)
  }

  /** The first `k` parameters sit in consecutive cells from `base` on. */
  ghost predicate ParamsPlaced(ps: seq<Entry>, base: nat, k: nat, slots: map<string, nat>)
    requires k <= |ps|
  {
    Rel(W.ParamScope(ps[..k]), W.ParamBindings(ps[..k], base), slots)
  }

  lemma {:induction false} PlaceNext(ps: seq<Entry>, base: nat, j: nat, slots: map<string, nat>)
    requires j < |ps| && ParamsPlaced(ps, base, j, slots)
    ensures ParamsPlaced(ps, base, j + 1, slots[SsaName(ps[j].name, j) := base + j])
  {
    hide SsaName;
    RelPush(W.ParamScope(ps[..j]), W.ParamBindings(ps[..j], base), slots, ps[j], base + j);
    ParamScopePush(ps, j, base);
  }

  lemma {:induction false} SimHeader(m: Module, fn: IrFn, ps: seq<Entry>, vs: seq<Value>, callers: seq<Frame>,
          mem: Memory, k: nat)
    returns (fr: Frame)
    requires DistinctNames(ps) && k <= |ps| && W.FitAll(vs, W.EntryTypes(ps))
    requires fn.params == GenParams(ps, ps) && At(fn.code, 0, GenHeader(ps[..k], ps))
    ensures HeaderDone(m, fn, ps, vs, callers, mem, k, fr)
  {
    hide Step, Iter, ParamsPlaced, SsaName, Find, Fits, GenParams;
    if k == 0 {
      fr := HeaderStart(m, fn, ps, vs, callers, mem);
    } else {
      var j := k - 1;
      assert ps[..k][..j] == ps[..j];
      AtAppend(fn.code, 0, GenHeader(ps[..j], ps), HeaderPart(ps, j));
      HeaderLength(ps[..j], ps);
      var f := SimHeader(m, fn, ps, vs, callers, mem, j);
      fr := HeaderStep(m, fn, ps, vs, callers, mem, j, f);
    }
  }

  lemma {:induction false} SnocSlice<T>(a: seq<T>, b: seq<T>, j: nat)
    requires j < |b|
    ensures a + b[..j] + [b[j]] == a + b[..j + 1]
  {
  }

  lemma {:induction false} HeaderStart(m: Module, fn: IrFn, ps: seq<Entry>, vs: seq<Value>, callers: seq<Frame>,
          mem: Memory)
    returns (fr: Frame)
    ensures HeaderDone(m, fn, ps, vs, callers, mem, 0, fr)
  {
    fr := Frame(fn, 0, map[], map[], vs, |mem|);
    assert mem + vs[..0] == mem;
  }

  function HeaderPart(ps: seq<Entry>, j: nat): seq<Instr>
    requires j < |ps|
  {
    var ssa := SsaOf(ps, ps[j].name);
    [Alloca(ssa, ps[j].ty), StoreSlot(ps[j].ty, Param(ssa), ssa)]
  }

  lemma {:induction false} ParamScopePush(ps: seq<Entry>, j: nat, base: nat)
    requires j < |ps|
    ensures W.ParamScope(ps[..j + 1]) == W.ParamScope(ps[..j]) + [W.Seen(ps[j], true)]
    ensures W.ParamBindings(ps[..j + 1], base)
         == W.ParamBindings(ps[..j], base) + [W.Binding(ps[j].name, ps[j].ty, base + j)]
  {
  }

  lemma {:induction false} HeaderStep(m: Module, fn: IrFn, ps: seq<Entry>, vs: seq<Value>, callers: seq<Frame>,
          mem: Memory, j: nat, f: Frame)
    returns (fr: Frame)
    requires DistinctNames(ps) && j < |ps| && W.FitAll(vs, W.EntryTypes(ps))
    requires fn.params == GenParams(ps, ps) && At(fn.code, 2 * j, HeaderPart(ps, j))
    requires HeaderDone(m, fn, ps, vs, callers, mem, j, f)
    ensures HeaderDone(m, fn, ps, vs, callers, mem, j + 1, fr)
  {
    hide Step, Iter, ParamsPlaced, SsaName, Find, HeaderPart, Fits, GenParams;
    fr := StoreParam(m, f, callers, mem + vs[..j], ps, j, vs[j]);
    IterPlus(m, Enter(fn, vs, callers, mem), 2 * j, 2);
    SnocSlice(mem, vs, j);
    assert |mem + vs[..j]| == |mem| + j;
    assert fr.slots == f.slots[SsaName(ps[j].name, j) := |mem| + j];
    PlaceNext(ps, |mem|, j, f.slots);
  }

  lemma {:induction false} StoreParam(m: Module, fr: Frame, callers: seq<Frame>, mem: Memory, ps: seq<Entry>, j: nat,
          v: Value)
    returns (fr': Frame)
    requires DistinctNames(ps) && j < |ps| && At(fr.fn.code, fr.pc, HeaderPart(ps, j))
    requires fr.fn.params == GenParams(ps, ps) && j < |fr.args| && v == fr.args[j]
    requires W.FitAll(fr.args, W.EntryTypes(ps))
    ensures Iter(m, Running(fr, callers, mem), 2) == Running(fr', callers, mem + [v])
    ensures fr' == fr.(pc := fr.pc + 2, slots := fr.slots[SsaName(ps[j].name, j) := |mem|])
  {
    hide Step, Iter, SsaName, Find, GenParams, Fits;
    FindDistinct(ps, j);
    IncomingParam(ps, j);
    assert W.EntryTypes(ps)[j] == ps[j].ty;
    fr' := RunParam(m, fr, callers, mem, ps[j], j, v);
  }

  /** One alloca and one store of an incoming value. */
  lemma {:induction false} RunParam(m: Module, fr: Frame, callers: seq<Frame>, mem: Memory, e: Entry, k: nat, v: Value)
    returns (fr': Frame)
    requires At(fr.fn.code, fr.pc, [Alloca(SsaName(e.name, k), e.ty),
                                    StoreSlot(e.ty, Param(SsaName(e.name, k)), SsaName(e.name, k))])
    requires EvalOp(Param(SsaName(e.name, k)), fr) == Some(v) && Fits(v, e.ty)
    ensures Iter(m, Running(fr, callers, mem), 2) == Running(fr', callers, mem + [v])
    ensures fr' == fr.(pc := fr.pc + 2, slots := fr.slots[SsaName(e.name, k) := |mem|])
  {
    var ssa := SsaName(e.name, k);
    var two := [Alloca(ssa, e.ty), StoreSlot(e.ty, Param(ssa), ssa)];
    AtHead(fr.fn.code, fr.pc, two, 0);
    AtHead(fr.fn.code, fr.pc, two, 1);
    var f1 := fr.(pc := fr.pc + 1, slots := fr.slots[ssa := |mem|]);
    var s := Running(fr, callers, mem);
    StepAt(m, s, 0);
    assert Iter(m, s, 1) == Running(f1, callers, mem + [Undef]);
    StepAt(m, s, 1);
    fr' := f1.(pc := fr.pc + 2);
    assert (mem + [Undef])[|mem| := v] == mem + [v];
  }
}
