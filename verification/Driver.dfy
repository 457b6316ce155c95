/** The compiler's driver (main.c, program.c), phase by phase. */
module Driver {
  import opened Wrappers
  import opened Types
  import opened Ir
  import opened Gen
  import opened FnTables
  import opened Sexprs
  import opened Reading
  import Codegen
  import E = EndToEnd
  import I = Includes
  import P = Parsing
  import Rendering
  import W = Weave

  /** collect_signatures */
  method CollectSignatures(fs: seq<Sexpr>, al: Aliases) returns (fns: FnTable)
    requires forall k :: 0 <= k < |fs| ==> IsFnForm(fs[k])
    ensures fresh(fns) && fns.Valid() && fns.sigs == Collected(fs, al)
  {
    hide CallSig, PartsOf;
    fns := new FnTable();
    for i := 0 to |fs|
      invariant fns.Valid() && fresh(fns) && fns.sigs == Collected(fs[..i], al)
    {
      assert fs[..i + 1][..i] == fs[..i];
      var name := NameOf(fs[i]);
      var skipped := HeadIs(Some(fs[i]), "fn") && (name == "arena-kind" || name == "arena-create");
      if !skipped && name != "" {
        fns.Add(name, CallSig(fs[i].items, al));
      }
    }
    assert fs[..|fs|] == fs;
  }

  /** The signatures that compile_to_llvm_ir registers after collection; one of them twice. */
  method RegisterBuiltins(fns: FnTable)
    requires fns.Valid()
    modifies fns
    ensures fns.Valid() && fns.sigs == WithBuiltins(old(fns.sigs))
  {
    var arena := Ptr(Struct("Arena"));
    fns.Add("arena-create", W.Sig(arena, [I32]));
    fns.Add("arena-kind", W.Sig(I32, [arena, I32]));
    fns.Add("llvm-jit-compile", W.Sig(I32, [I8Ptr, I8Ptr]));
    fns.Add("llvm-jit-call", W.Sig(I32, [I8Ptr, I8Ptr, I32, I32]));
    fns.Add("llvm-compile-ir-to-assembly", W.Sig(I32, [I8Ptr, I8Ptr, I32]));
    fns.Add("llvm-compile-ir-to-object", W.Sig(I32, [I8Ptr, I8Ptr, I32]));
    fns.Add("llvm-link-objects", W.Sig(I32, [I8Ptr, I8Ptr, I8Ptr]));
    fns.Add("arena-kind", W.Sig(I32, [arena, I32]));
  }

  /** compile_to_llvm_ir: types, then all signatures, then all functions. */
  method CompileForms(forms: seq<Sexpr>) returns (r: Option<Module>)
    ensures r == E.Compile(forms)
  {
    hide WithBuiltins, Collected, ReadFns, FnForms, AliasesOf, GenModule;
    var al := AliasesOf(forms, map[]);
    var fs := FnForms(forms);
    var fns := CollectSignatures(fs, al);
    RegisterBuiltins(fns);
    var p := ReadFns(fs, al);
    if p.None? {
      return None;
    }
    var m, fatal := Codegen.CompileFunctions(p.value, fns);
    r := if fatal then None else Some(m);
  }

  /** The way from an input file to its module: parse, merge includes, compile. */
  method CompileFile(d: I.Disk, path: string) returns (r: Option<Module>)
    ensures r == match E.SourceForms(d, path) case None => None case Some(forms) => E.Compile(forms)
  {
    hide I.Walk, E.Compile, P.Parse, I.All;
    if path !in d.files {
      return None;
    }
    var nodes := P.ParseTop(d.files[path]);
    if nodes.None? {
      return None;
    }
    var merger := new I.Merger(d);
    var top := merger.MergeList(Rendering.Strip(nodes.value), E.BaseDir(path));
    if top.None? {
      return None;
    }
    r := CompileForms(top.value);
  }
}
