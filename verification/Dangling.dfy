/** A program that obeys the rules and still accesses a variable of a finished call: confining
    pointers is needed. */
module Dangling {
  import opened Wrappers
  import opened Types
  import opened Values
  import opened Env
  import opened Ir
  import opened Gen
  import opened Correctness
  import opened Safety
  import opened TypedMemory
  import Linking
  import W = Weave

  /** Returns the address of its variable. */
  function Maker(): W.FnDef {
    W.FnDef("f", [], Ptr(I32), [W.Let("x", I32, W.Const(5), [W.Return(W.AddrOf("x"))])])
  }

  /** Loads through it. */
  function Taker(): W.FnDef {
    W.FnDef("g", [], I32, [W.Return(W.Deref(I32, W.CallFn("f", [])))])
  }

  function Both(): W.Program {
    [Maker(), Taker()]
  }

  lemma {:induction false} BothSigs()
    ensures W.SigsOf(Both()) == map["f" := W.Sig(Ptr(I32), []), "g" := W.Sig(I32, [])]
    ensures W.FindDef(Both(), "f") == Some(Maker()) && W.FindDef(Both(), "g") == Some(Taker())
  {
    var p := Both();
    assert p[..1] == [Maker()] && [Maker()][..0] == [] && p[1..][0] == Taker();
    assert W.SigsOf([]) == map[];
    assert W.SigsOf([Maker()]) == map["f" := W.Sig(Ptr(I32), [])];
    assert W.SigsOf(p) == W.SigsOf(p[..1])["g" := W.Sig(I32, [])];
  }

  lemma {:induction false} MakerOk(sigs: W.Sigs)
    ensures W.FnOk(Maker(), sigs) && FnIn(Maker(), Free)
  {
    var sc := [W.Seen(Entry("x", I32), true)];
    assert [] + sc == sc && W.Plain(sc) == [Entry("x", I32)];
    assert Find([Entry("x", I32)], "x") == 0;
    assert W.Resolves("x", sc) && W.ExprType(W.AddrOf("x"), W.Plain(sc), sigs) == Ptr(I32);
    var ret := W.Return(W.AddrOf("x"));
    assert W.CheckStmt(ret, sc, sigs, Ptr(I32)) == Some(W.Checked(sc, None));
    assert W.CheckList([ret], sc, sigs, Ptr(I32)) == Some(W.Checked(sc, None));
    assert W.CheckStmt(Maker().body[0], [], sigs, Ptr(I32)) == Some(W.Checked(sc, None));
    assert W.ListExits([ret]) && W.Exits(Maker().body[0]) && W.ListExits(Maker().body);
    assert W.CheckList(Maker().body, [], sigs, Ptr(I32)) == Some(W.Checked(sc, None));
    assert ListIn([ret], Free) && StmtIn(Maker().body[0], Free);
    assert W.ParamScope([]) == [];
  }

  lemma {:induction false} TakerOk(sigs: W.Sigs)
    requires "f" in sigs && sigs["f"] == W.Sig(Ptr(I32), [])
    ensures W.FnOk(Taker(), sigs) && FnIn(Taker(), Free)
  {
    var call := W.CallFn("f", []);
    assert W.ArgsOk([], [], [], sigs);
    assert W.ExprOk(call, [], sigs) && W.ExprType(call, W.Plain([]), sigs) == Ptr(I32);
    assert W.ExprOk(W.Deref(I32, call), [], sigs);
    assert W.CheckStmt(Taker().body[0], [], sigs, I32) == Some(W.Checked([], None));
    assert W.CheckList(Taker().body, [], sigs, I32) == Some(W.Checked([], None));
    assert ArgsIn([], Free) && ExprIn(call, Free) && StmtIn(Taker().body[0], Free);
    assert W.ParamScope([]) == [];
  }

  lemma {:induction false} MakerRuns(mem: Memory)
    ensures W.RunFn(Both(), Maker(), [], mem, 0) == W.Ok(W.VM(Pointer(|mem|), mem + [Dead]))
  {
    var p := Both();
    var b := [W.Binding("x", I32, |mem|)];
    assert W.ParamBindings([], |mem|) == [] && mem + [] == mem && [] + b == b;
    assert W.EvalExpr(p, W.Const(5), [], mem, 0) == W.Ok(W.VM(Int(5), mem));
    var ret := W.Return(W.AddrOf("x"));
    assert W.EvalExpr(p, W.AddrOf("x"), b, mem + [Int(5)], 0) == W.Ok(W.VM(Pointer(|mem|), mem + [Int(5)]));
    assert W.ExecStmt(p, ret, b, mem + [Int(5)], 0) == W.Ok(W.Returned(Pointer(|mem|), mem + [Int(5)]));
    assert W.ExecList(p, [ret], b, mem + [Int(5)], 0) == W.Ok(W.Returned(Pointer(|mem|), mem + [Int(5)]));
    assert W.ExecStmt(p, Maker().body[0], [], mem, 0) == W.Ok(W.Returned(Pointer(|mem|), mem + [Int(5)]));
    assert Retire(mem + [Int(5)], |mem|) == mem + [Dead];
  }

  lemma {:induction false} TakerRuns(mem: Memory)
    ensures W.RunFn(Both(), Taker(), [], mem, 1) == W.Stuck(W.Dangling)
  {
    hide W.RunFn;
    var p := Both();
    BothSigs();
    MakerRuns(mem);
    var call := W.CallFn("f", []);
    assert W.EvalList(p, [], [], mem, 1) == W.Ok(W.VsM([], mem));
    assert W.CoerceAll([], []) == [] && W.EntryTypes([]) == [];
    assert W.EvalExpr(p, call, [], mem, 1) == W.Ok(W.VM(Pointer(|mem|), mem + [Dead]));
    assert W.EvalExpr(p, W.Deref(I32, call), [], mem, 1) == W.Stuck(W.Dangling);
    assert W.ExecStmt(p, Taker().body[0], [], mem, 1) == W.Stuck(W.Dangling);
    RunTaker(mem);
  }

  lemma {:induction false} RunTaker(mem: Memory)
    requires W.ExecStmt(Both(), Taker().body[0], [], mem, 1) == W.Stuck(W.Dangling)
    ensures W.RunFn(Both(), Taker(), [], mem, 1) == W.Stuck(W.Dangling)
  {
    hide W.ExecStmt;
    assert W.ParamBindings([], |mem|) == [] && mem + [] == mem;
    assert W.ExecList(Both(), Taker().body, [], mem, 1) == W.Stuck(W.Dangling);
  }

  /** It obeys the scoping and typing rules, and the emitted code gets stuck at the load. */
  lemma {:induction false} PointersEscape(t: nat, l: nat, mem: Memory)
    ensures W.ProgramOk(Both()) && ProgramIn(Both(), Free) && W.FindDef(Both(), "g") == Some(Taker())
    ensures var m := GenModule(Both(), W.SigsOf(Both()), t, l).m;
            SourceFaults(Both(), Taker(), [], mem, W.Dangling) && FindFn(m, "g").Some? &&
            Reaches(m, Enter(FindFn(m, "g").value, [], [], mem), Wrong)
  {
    hide W.RunFn, W.FnOk, FnIn, GenModule, Enter, Reaches;
    BothSigs();
    MakerOk(W.SigsOf(Both()));
    TakerOk(W.SigsOf(Both()));
    TakerRuns(mem);
    assert SourceStuck(Both(), Taker(), [], mem);
    CompilePreservesMeaning(Both(), t, l, "g", [], mem, Int(0), mem);
  }
}
