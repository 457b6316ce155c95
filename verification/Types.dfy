/** The type references of stage0 (types.c). */
module Types {
  import S = Sexprs

  datatype TypeRef = I32 | I8Ptr | Void | Struct(name: string) | Ptr(pointee: TypeRef)

  /** type_eq, without its short cut for identical pointers */
  predicate TypeEq(a: TypeRef, b: TypeRef) {
    match (a, b)
    case (Struct(n), Struct(m)) => n == m
    case (Ptr(p), Ptr(q)) => TypeEq(p, q)
    case (I32, I32) => true
    case (I8Ptr, I8Ptr) => true
    case (Void, Void) => true
    case _ => false
  }

  /** So it is an equivalence relation, and `==` may stand for it. */
  lemma {:induction false} TypeEqIsEquality(a: TypeRef, b: TypeRef)
    ensures TypeEq(a, b) <==> a == b
  {
    if a.Ptr? && b.Ptr? {
      TypeEqIsEquality(a.pointee, b.pointee);
    }
  }

  /** emit_llvm_type */
  function Spell(t: TypeRef): (s: string)
    ensures s != ""
  {
    match t
    case I32 => "i32"
    case I8Ptr => "i8*"
    case Void => "void"
    case Struct(n) => "%" + n
    case Ptr(p) => Spell(p) + "*"
  }

  /** The struct name inside a type, if there is one, does not end in a star. */
  predicate PlainNames(t: TypeRef) {
    match t
    case Struct(n) => n == "" || n[|n| - 1] != '*'
    case Ptr(p) => PlainNames(p)
    case _ => true
  }

  /** Only pointers and i8* end in a star. */
  lemma {:induction false} SpellEnd(t: TypeRef)
    requires PlainNames(t)
    ensures var s := Spell(t); s[|s| - 1] == '*' <==> t.Ptr? || t.I8Ptr?
  {
    assert "i32"[2] == '2' && "i8*"[2] == '*' && "void"[3] == 'd';
  }

  /** i8 is the spelling of no type, so i8* is not the spelling of a pointer. */
  lemma {:induction false} NotI8(t: TypeRef)
    requires PlainNames(t)
    ensures Spell(t) != "i8"
  {
    SpellEnd(t);
    assert |"i8"| == 2 && "i8"[0] == 'i' && "i8"[1] == '8';
    if t.Struct? {
      assert Spell(t)[0] == '%';
    }
  }

  /** Among types without starred names, only equal ones are spelled alike. */
  lemma {:induction false} PlainSpelling(a: TypeRef, b: TypeRef)
    requires PlainNames(a) && PlainNames(b)
    ensures Spell(a) == Spell(b) <==> a == b
    decreases a
  {
    SpellEnd(a);
    SpellEnd(b);
    if a.Ptr? && b.Ptr? {
      assert Spell(a)[..|Spell(a)| - 1] == Spell(a.pointee) && Spell(b)[..|Spell(b)| - 1] == Spell(b.pointee);
      PlainSpelling(a.pointee, b.pointee);
    } else if a.Ptr? && b.I8Ptr? {
      NotI8(a.pointee);
      assert Spell(a)[..|Spell(a)| - 1] == Spell(a.pointee) && "i8*"[..2] == "i8";
    } else if a.I8Ptr? && b.Ptr? {
      NotI8(b.pointee);
      assert Spell(b)[..|Spell(b)| - 1] == Spell(b.pointee) && "i8*"[..2] == "i8";
    } else if a.Struct? && b.Struct? {
      assert Spell(a)[1..] == a.name && Spell(b)[1..] == b.name;
    } else {
      assert a.Struct? ==> Spell(a)[0] == '%';
      assert b.Struct? ==> Spell(b)[0] == '%';
      assert |"i32"| == 3 && |"void"| == 4;
    }
  }

  /** The type that a reader of LLVM sees: stars that end a struct name count as pointers. */
  function Unstar(t: TypeRef): TypeRef {
    match t
    case Struct(n) => UnstarName(n)
    case Ptr(p) => Ptr(Unstar(p))
    case _ => t
  }

  function UnstarName(n: string): TypeRef {
    if n != "" && n[|n| - 1] == '*' then Ptr(UnstarName(n[..|n| - 1])) else Struct(n)
  }

  lemma {:induction false} UnstarNameSpells(n: string)
    ensures PlainNames(UnstarName(n)) && Spell(UnstarName(n)) == "%" + n
  {
    if n != "" && n[|n| - 1] == '*' {
      UnstarNameSpells(n[..|n| - 1]);
      assert n == n[..|n| - 1] + "*";
    }
  }

  /** It has no starred names and the same spelling. */
  lemma {:induction false} UnstarSpells(t: TypeRef)
    ensures PlainNames(Unstar(t)) && Spell(Unstar(t)) == Spell(t)
  {
    match t
    case Struct(n) => UnstarNameSpells(n);
    case Ptr(p) => UnstarSpells(p);
    case _ =>
  }

  lemma {:induction false} UnstarPlain(t: TypeRef)
    requires PlainNames(t)
    ensures Unstar(t) == t
  {
    if t.Ptr? {
      UnstarPlain(t.pointee);
    }
  }

  /** Exactly which types are spelled alike: those that are equal once the stars ending a
      struct name are read as pointers. */
  lemma {:induction false} SpelledAlike(a: TypeRef, b: TypeRef)
    ensures Spell(a) == Spell(b) <==> Unstar(a) == Unstar(b)
  {
    UnstarSpells(a);
    UnstarSpells(b);
    PlainSpelling(Unstar(a), Unstar(b));
  }

  /** So spelling tells types apart as long as no struct name ends in a star. */
  lemma {:induction false} SpellInjective(a: TypeRef, b: TypeRef)
    requires PlainNames(a) && PlainNames(b)
    ensures Spell(a) == Spell(b) <==> TypeEq(a, b)
  {
    SpelledAlike(a, b);
    UnstarPlain(a);
    UnstarPlain(b);
    TypeEqIsEquality(a, b);
  }

  /** And every type in which a struct name ends in a star, behind however many pointers, is
      spelled like another type. */
  lemma {:induction false} StarredNameCollides(t: TypeRef)
    requires !PlainNames(t)
    ensures Spell(t) == Spell(Unstar(t)) && !TypeEq(t, Unstar(t))
  {
    UnstarSpells(t);
    TypeEqIsEquality(t, Unstar(t));
  }

  predicate IsHandle(s: string) {
    s == "String" || s == "Buffer" || s == "ArrayString" || s == "ArrayInt32"
  }

  /** parse_type_node; every unknown form reads as Int32. */
  function ParseType(aliases: map<string, TypeRef>, n: S.Sexpr): TypeRef {
    match n
    case Str(_) => I32
    case Atom(s) =>
      if s == "Int32" then I32
      else if s == "Void" then Void
      else if IsHandle(s) then I8Ptr
      else if s in aliases then aliases[s]
      else Struct(s)
    case List(items) =>
      if items != [] && items[0] == S.Atom("ptr") then
        if |items| > 1 then Ptr(ParseType(aliases, items[1])) else I32
      else if items != [] && items[0] == S.Atom("struct") then
        if |items| > 1 && items[1].Atom? then Struct(items[1].text) else Struct("unknown")
      else I32
  }

  /** Atoms without a trailing star lead to types that are told apart by their spelling. */
  predicate PlainAtoms(n: S.Sexpr) {
    match n
    case Atom(s) => s == "" || s[|s| - 1] != '*'
    case Str(_) => true
    case List(items) => forall k :: 0 <= k < |items| ==> PlainAtoms(items[k])
  }

  lemma {:induction false} ParsedNamesPlain(aliases: map<string, TypeRef>, n: S.Sexpr)
    requires PlainAtoms(n) && forall a :: a in aliases ==> PlainNames(aliases[a])
    ensures PlainNames(ParseType(aliases, n))
  {
    if n.List? && |n.items| > 1 && n.items[0] == S.Atom("ptr") {
      ParsedNamesPlain(aliases, n.items[1]);
    }
    assert "unknown"[6] == 'n';
  }
}
