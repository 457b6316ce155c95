/** The signature table of stage0 (fn_table.c). */
module FnTables {
  import opened Wrappers
  import opened Types
  import opened Gen
  import W = Weave

  /** Parallel arrays of names, return types and parameter types.  `sigs` is the map they
      stand for. */
  class FnTable {
    ghost var sigs: W.Sigs

    var names: seq<string>
    var rets: seq<TypeRef>
    var params: seq<seq<TypeRef>>

    ghost predicate Valid()
      reads this
    {
      |names| == |rets| == |params| &&
      (forall i, j :: 0 <= i < j < |names| ==> names[i] != names[j]) &&
      (forall i :: 0 <= i < |names| ==> names[i] in sigs && sigs[names[i]] == W.Sig(rets[i], params[i])) &&
      (forall f :: f in sigs ==> f in names)
    }

    constructor ()
      ensures Valid() && sigs == map[]
    {
      names, rets, params := [], [], [];
      sigs := map[];
    }

    /** fn_table_find: linear search. */
    method Find(f: string) returns (i: int)
      requires Valid()
      ensures -1 <= i < |names|
      ensures i >= 0 ==> names[i] == f && f in sigs && sigs[f] == W.Sig(rets[i], params[i])
      ensures i < 0 ==> f !in sigs
    {
      i := 0;
      while i < |names|
        invariant 0 <= i <= |names|
        invariant forall k :: 0 <= k < i ==> names[k] != f
      {
        if names[i] == f {
          return;
        }
        i := i + 1;
      }
      return -1;
    }

    /** fn_table_add: a later declaration of a name overwrites the entry in place. */
    method Add(f: string, sig: W.Sig)
      requires Valid()
      modifies this
      ensures Valid() && sigs == old(sigs)[f := sig]
    {
      var i := Find(f);
      if i >= 0 {
        rets := rets[i := sig.ret];
        params := params[i := sig.params];
      } else {
        names, rets, params := names + [f], rets + [sig.ret], params + [sig.params];
      }
      sigs := sigs[f := sig];
    }

    /** fn_table_ret_type with stage0's default. */
    method RetTypeOf(f: string) returns (t: TypeRef)
      requires Valid()
      ensures t == RetType(sigs, f)
    {
      var i := Find(f);
      t := if i < 0 then I32 else rets[i];
    }

    /** fn_table_param_type with stage0's default. */
    method ParamTypeOf(f: string, k: nat) returns (t: TypeRef)
      requires Valid()
      ensures t == ParamType(sigs, f, k)
    {
      var i := Find(f);
      t := if i < 0 || k >= |params[i]| then I32 else params[i][k];
    }
  }
}
