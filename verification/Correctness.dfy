/** Compiling preserves meaning. */
module Correctness {
  import opened Wrappers
  import opened Types
  import opened Values
  import opened Ir
  import opened Gen
  import opened Linking
  import opened Simulation
  import W = Weave

  /** Whether a call of `fn` in the source ends with the given result. */
  ghost predicate SourceReturns(p: W.Program, fn: W.FnDef, args: seq<Value>, mem: Memory, v: Value, mem': Memory) {
    exists fuel: nat :: W.RunFn(p, fn, args, mem, fuel) == W.Ok(W.VM(v, mem'))
  }

  ghost predicate SourceStuck(p: W.Program, fn: W.FnDef, args: seq<Value>, mem: Memory) {
    exists fuel: nat :: W.RunFn(p, fn, args, mem, fuel).Stuck?
  }

  ghost predicate Reaches(m: Module, s: State, t: State) {
    exists n: nat :: Iter(m, s, n) == t
  }

  /** For every program that obeys the scoping and typing rules, every function and all
      arguments of the declared types: the emitted code, started at the function's entry,
      returns a value and leaves a memory exactly when the source does; it gets stuck
      exactly when the source does; and so it runs forever exactly when the source does. */
  lemma {:induction false} CompilePreservesMeaning(p: W.Program, t: nat, l: nat, f: string, args: seq<Value>,
          mem: Memory, v: Value, mem': Memory)
    requires W.ProgramOk(p) && W.FindDef(p, f).Some?
    requires W.FitAll(args, W.EntryTypes(W.FindDef(p, f).value.params))
    ensures var m := GenModule(p, W.SigsOf(p), t, l).m;
            var fn := W.FindDef(p, f).value;
            FindFn(m, f).Some? &&
            var start := Enter(FindFn(m, f).value, args, [], mem);
            (SourceReturns(p, fn, args, mem, v, mem') <==> Reaches(m, start, Done(v, mem'))) &&
            (SourceStuck(p, fn, args, mem) <==> Reaches(m, start, Wrong))
  {
    hide Iter, W.RunFn, GenModule, GenFn, W.SigsOf, W.FitAll, Enter;
    var m := GenModule(p, W.SigsOf(p), t, l).m;
    var fn := W.FindDef(p, f).value;
    var t', l' := CallTarget(p, m, f);
    SigsAgree(p, f);
    var w := World(p, m, []);
    var start := Enter(FindFn(m, f).value, args, [], mem);
    if SourceReturns(p, fn, args, mem, v, mem') {
      var fuel: nat :| W.RunFn(p, fn, args, mem, fuel) == W.Ok(W.VM(v, mem'));
      var n := SimFn(w, fn, args, mem, t', l', fuel);
    }
    if SourceStuck(p, fn, args, mem) {
      var fuel: nat :| W.RunFn(p, fn, args, mem, fuel).Stuck?;
      var n := SimFn(w, fn, args, mem, t', l', fuel);
    }
    if Reaches(m, start, Done(v, mem')) {
      FinalIsSource(w, fn, args, mem, t', l', Done(v, mem'));
    }
    if Reaches(m, start, Wrong) {
      FinalIsSource(w, fn, args, mem, t', l', Wrong);
    }
  }

  /** A final state of the machine is the source's result: with more fuel than the machine
      took steps, the source cannot still be running. */
  lemma {:induction false} FinalIsSource(w: World, fn: W.FnDef, args: seq<Value>, mem: Memory, t: nat, l: nat,
          end: State)
    requires Linked(w.p, w.m) && W.FnOk(fn, W.SigsOf(w.p)) && W.FitAll(args, W.EntryTypes(fn.params)) && w.callers == []
    requires !end.Running? && Reaches(w.m, Enter(GenFn(fn, W.SigsOf(w.p), t, l).fn, args, [], mem), end)
    ensures end.Done? ==> SourceReturns(w.p, fn, args, mem, end.v, end.mem)
    ensures end.Wrong? ==> SourceStuck(w.p, fn, args, mem)
  {
    hide Iter, W.RunFn, GenFn, W.SigsOf, W.FitAll, Enter;
    var s := Enter(GenFn(fn, W.SigsOf(w.p), t, l).fn, args, [], mem);
    var n: nat :| Iter(w.m, s, n) == end;
    var k := SimFn(w, fn, args, mem, t, l, n + 1);
    IterFinal(w.m, s, if n <= k then n else k, if n <= k then k else n);
  }
}
