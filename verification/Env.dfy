/** The compile-time variable environment of stage0 (env.c): a flat list, never popped. */
module Env {
  import opened Wrappers
  import opened Types
  import opened Decimal

  datatype Kind = Local | Parameter
  datatype Entry = Entry(name: string, ty: TypeRef)

  predicate IsLetter(c: char) {
    'a' <= c <= 'z' || 'A' <= c <= 'Z'
  }

  /** `isalnum(c) || c == '_'` in the C locale. */
  predicate IsNameChar(c: char) {
    IsLetter(c) || IsDigit(c) || c == '_'
  }

  function Clean(name: string): (r: string)
    ensures |r| == |name|
    ensures forall k :: 0 <= k < |r| ==> r[k] == if IsNameChar(name[k]) then name[k] else '_'
  {
    if name == "" then "" else [if IsNameChar(name[0]) then name[0] else '_'] + Clean(name[1..])
  }

  function Sanitize(name: string): string {
    if name == "" then "v"
    else if IsDigit(Clean(name)[0]) then "v_" + Clean(name)
    else Clean(name)
  }

  /** The alloca of the variable declared at position `idx` of the environment; its number
      counts the declarations up to and including it. */
  function SsaName(name: string, idx: nat): string {
    "v_" + Sanitize(name) + "_" + Numeral(idx + 1)
  }

  /** Position of the latest declaration of `x`, or -1. */
  function Find(env: seq<Entry>, x: string): (i: int)
    ensures -1 <= i < |env|
  {
    if env == [] then -1
    else if env[|env| - 1].name == x then |env| - 1
    else Find(env[..|env| - 1], x)
  }

  /** What `Find` means: the last entry of that name, and -1 only when there is none. */
  lemma {:induction false} FindIsLast(env: seq<Entry>, x: string)
    ensures Find(env, x) >= 0 ==> env[Find(env, x)].name == x
    ensures forall k :: Find(env, x) < k < |env| ==> env[k].name != x
  {
    if env != [] && env[|env| - 1].name != x {
      var init := env[..|env| - 1];
      FindIsLast(init, x);
      forall k | Find(env, x) < k < |env| ensures env[k].name != x {
        if k < |init| {
          assert init[k] == env[k];
        }
      }
    }
  }

  /** Adding a declaration overrides earlier ones of that name and no others. */
  lemma {:induction false} FindAfterAdd(env: seq<Entry>, e: Entry, x: string)
    ensures Find(env + [e], x) == if e.name == x then |env| else Find(env, x)
  {
    assert (env + [e])[..|env|] == env;
  }

  function SsaOf(env: seq<Entry>, x: string): string {
    if Find(env, x) < 0 then x else SsaName(x, Find(env, x))
  }

  function TypeOf(env: seq<Entry>, x: string): Option<TypeRef> {
    if Find(env, x) < 0 then None else Some(env[Find(env, x)].ty)
  }

  /** The part of a string after its last underscore. */
  function AfterLast(s: string): string {
    if s == "" then ""
    else if s[|s| - 1] == '_' then ""
    else AfterLast(s[..|s| - 1]) + [s[|s| - 1]]
  }

  lemma {:induction false} AfterLastIsSuffix(p: string, d: string)
    requires forall k :: 0 <= k < |d| ==> IsDigit(d[k])
    ensures AfterLast(p + "_" + d) == d
  {
    var s := p + "_" + d;
    if d == "" {
      assert s[|s| - 1] == '_';
    } else {
      var d' := d[..|d| - 1];
      assert s[|s| - 1] == d[|d| - 1];
      assert s[..|s| - 1] == p + "_" + d';
      AfterLastIsSuffix(p, d');
      assert d == d' + [d[|d| - 1]];
    }
  }

  /** Names declared at different positions get different allocas, whatever `Sanitize`
      made of them. */
  lemma {:induction false} SsaNamesDistinct(x: string, i: nat, y: string, j: nat)
    requires SsaName(x, i) == SsaName(y, j)
    ensures i == j
  {
    AfterLastIsSuffix("v_" + Sanitize(x), Numeral(i + 1));
    AfterLastIsSuffix("v_" + Sanitize(y), Numeral(j + 1));
    NumeralInjective(i + 1, j + 1);
  }

  function TempName(t: nat): string { "t" + Numeral(t) }
  function LabelName(l: nat): string { "L" + Numeral(l) }
  function ParamName(ssa: string): string { "p_" + ssa }

  /** Allocas never clash with temps, labels, incoming parameters or the entry block. */
  lemma {:induction false} SsaNamesApart(x: string, i: nat, k: nat, ssa: string)
    ensures SsaName(x, i) != TempName(k) && SsaName(x, i) != LabelName(k)
    ensures SsaName(x, i) != ParamName(ssa) && SsaName(x, i) != "fn_entry"
    ensures TempName(k) != LabelName(k) && TempName(k) != "fn_entry" && LabelName(k) != "fn_entry"
  {
    assert SsaName(x, i)[0] == 'v';
    assert TempName(k)[0] == 't' && LabelName(k)[0] == 'L';
    assert ParamName(ssa)[0] == 'p' && "fn_entry"[0] == 'f';
  }

  /** An alloca name is a legal unquoted LLVM identifier. */
  lemma {:induction false} SsaNameIsIdentifier(x: string, i: nat)
    ensures var s := SsaName(x, i);
            IsLetter(s[0]) && forall k :: 0 <= k < |s| ==> IsNameChar(s[k])
  {
    var b := Sanitize(x);
    assert forall k :: 0 <= k < |b| ==> IsNameChar(b[k]);
  }

  /** The environment object: parallel arrays of names, allocas, kinds and types.
      `entries` is what they stand for. */
  class VarEnv {
    ghost var entries: seq<Entry>

    var names: seq<string>
    var ssaNames: seq<string>
    var kinds: seq<Kind>
    var types: seq<TypeRef>

    ghost predicate Valid()
      reads this
    {
      |names| == |ssaNames| == |kinds| == |types| == |entries| &&
      forall k :: 0 <= k < |names| ==>
        ssaNames[k] == SsaName(names[k], k) && entries[k] == Entry(names[k], types[k])
    }

    constructor ()
      ensures Valid() && entries == []
    {
      names, ssaNames, kinds, types := [], [], [], [];
      entries := [];
    }

    /** env_find: scan from the newest declaration to the oldest. */
    method FindIndex(x: string) returns (i: int)
      requires Valid()
      ensures i == Find(entries, x)
    {
      hide SsaName;
      i := |names| - 1;
      assert entries[..i + 1] == entries;
      while i >= 0
        invariant -1 <= i < |names|
        invariant Find(entries, x) == Find(entries[..i + 1], x)
      {
        assert entries[..i + 1][..i] == entries[..i];
        if names[i] == x {
          return;
        }
        i := i - 1;
      }
    }

    /** env_add: the name is pushed before its alloca is numbered by the length. */
    method Add(x: string, kind: Kind, ty: TypeRef)
      requires Valid()
      modifies this
      ensures Valid() && entries == old(entries) + [Entry(x, ty)]
      ensures kinds == old(kinds) + [kind]
    {
      names := names + [x];
      var base := SanitizeName(x);
      ssaNames := ssaNames + ["v_" + base + "_" + Numeral(|names|)];
      kinds := kinds + [kind];
      types := types + [ty];
      entries := entries + [Entry(x, ty)];
    }

    /** env_ssa_name: an undeclared name stands for itself. */
    method Ssa(x: string) returns (s: string)
      requires Valid()
      ensures s == SsaOf(entries, x)
    {
      var i := FindIndex(x);
      FindIsLast(entries, x);
      s := if i < 0 then x else ssaNames[i];
    }

    /** env_type. */
    method TypeOfName(x: string) returns (t: Option<TypeRef>)
      requires Valid()
      ensures t == TypeOf(entries, x)
    {
      var i := FindIndex(x);
      t := if i < 0 then None else Some(types[i]);
    }
  }

  /** sanitize_name: the character loop and the fix-up of a leading digit. */
  method SanitizeName(name: string) returns (r: string)
    ensures r == Sanitize(name)
  {
    if name == "" {
      return "v";
    }
    r := "";
    for i := 0 to |name|
      invariant |r| == i
      invariant forall k :: 0 <= k < i ==> r[k] == if IsNameChar(name[k]) then name[k] else '_'
    {
      r := r + [if IsNameChar(name[i]) then name[i] else '_'];
    }
    assert r == Clean(name);
    if IsDigit(r[0]) {
      r := "v_" + r;
    }
  }
}
