/** The stage0 source language: abstract syntax and a fuelled big-step semantics. */
module Weave {
  import opened Wrappers
  import opened Types
  import opened Values
  import opened Env

  datatype ArithOp = Plus | Minus | Times | Divide
  datatype CmpOp = Equal | NotEqual | Less | LessEq | Greater | GreaterEq
  datatype LogicOp = Both | Either
  datatype Operator = Arith(a: ArithOp) | Cmp(c: CmpOp) | Logic(l: LogicOp)

  datatype Expr =
    | Const(n: int)
    | Var(x: string)
    | Binary(op: Operator, lhs: Expr, rhs: Expr)
    | AddrOf(x: string)
    | Deref(ty: TypeRef, p: Expr)
    | CallFn(f: string, args: seq<Expr>)

  /** `Let` carries the statements nested behind its initialiser; a missing branch of an
      `if-stmt` and a non-list statement are `Nop`. */
  datatype Stmt =
    | Nop
    | Return(e: Expr)
    | StoreTo(ty: TypeRef, p: Expr, e: Expr)
    | Let(x: string, ty: TypeRef, e: Expr, rest: seq<Stmt>)
    | Set(x: string, e: Expr)
    | Do(ss: seq<Stmt>)
    | If(cond: Expr, thn: Stmt, els: Stmt)
    | While(cond: Expr, body: Stmt)
    | Eval(e: Expr)

  datatype FnDef = FnDef(name: string, params: seq<Entry>, ret: TypeRef, body: seq<Stmt>)
  type Program = seq<FnDef>

  datatype Sig = Sig(ret: TypeRef, params: seq<TypeRef>)
  type Sigs = map<string, Sig>

  function FindDef(p: Program, f: string): Option<FnDef> {
    if p == [] then None else if p[0].name == f then Some(p[0]) else FindDef(p[1..], f)
  }

  function EntryTypes(ps: seq<Entry>): (r: seq<TypeRef>)
    ensures |r| == |ps| && forall k :: 0 <= k < |r| ==> r[k] == ps[k].ty
  {
    if ps == [] then [] else [ps[0].ty] + EntryTypes(ps[1..])
  }

  function SigOf(fn: FnDef): Sig {
    Sig(fn.ret, EntryTypes(fn.params))
  }

  /** The static type of an expression: what the C code records in `Value.type`.  Unknown
      names and calls of `Void` functions count as the integer 0. */
  function ExprType(e: Expr, env: seq<Entry>, sigs: Sigs): TypeRef {
    match e
    case Const(_) => I32
    case Var(x) => (match TypeOf(env, x) case None => I32 case Some(t) => t)
    case Binary(_, _, _) => I32
    case AddrOf(x) => (match TypeOf(env, x) case None => I32 case Some(t) => Ptr(t))
    case Deref(ty, _) => ty
    case CallFn(f, _) => if f in sigs && !sigs[f].ret.Void? then sigs[f].ret else I32
  }

  // ---------- semantics ----------

  /** A variable in scope: its name, type and memory cell. */
  datatype Binding = Binding(name: string, ty: TypeRef, loc: nat)
  type Bindings = seq<Binding>

  /** Why a run of the source is stuck: a zero divisor or an overflowing quotient, an access
      through the null pointer or to a variable of a finished call, or anything else. */
  datatype Fault = Division | NullAccess | Dangling | Confusion

  datatype Res<+T> = Ok(v: T) | Stuck(why: Fault) | Timeout

  datatype ValMem = VM(v: Value, mem: Memory)
  datatype ValsMem = VsM(vs: seq<Value>, mem: Memory)

  /** Where a statement leaves off: after it, with the value an implicit return would
      yield and the variables in scope, or out of the function. */
  datatype Flow = Next(last: Option<Value>, b: Bindings, mem: Memory) | Returned(v: Value, mem: Memory)

  function Declared(b: Bindings): seq<Entry> {
    if b == [] then [] else Declared(b[..|b| - 1]) + [Entry(b[|b| - 1].name, b[|b| - 1].ty)]
  }

  /** The innermost variable of that name. */
  function Lookup(b: Bindings, x: string): Option<Binding> {
    if b == [] then None
    else if b[|b| - 1].name == x then Some(b[|b| - 1])
    else Lookup(b[..|b| - 1], x)
  }

  function AsPointer(v: Value): Value {
    if v == Int(0) then Null else v
  }

  /** A value where one of type `ty` is wanted: the number 0 stands for the null pointer, and
      a pointer for the number that is its address. */
  function Coerce(v: Value, ty: TypeRef): Value {
    if ty.I8Ptr? then AsPointer(v)
    else if ty.I32? && (v.Pointer? || v.Null?) then Int(AddressOf(v))
    else v
  }

  /** The result of an expression, wanted at type `ty`. */
  function Coerced(r: Res<ValMem>, ty: TypeRef): Res<ValMem> {
    match r
    case Ok(x) => Ok(VM(Coerce(x.v, ty), x.mem))
    case _ => r
  }

  /** An operand: arithmetic and logic take pointers as numbers. */
  function Taken(op: Operator, r: Res<ValMem>): Res<ValMem> {
    if op.Cmp? then r else Coerced(r, I32)
  }

  function CoerceAll(vs: seq<Value>, tys: seq<TypeRef>): seq<Value> {
    if vs == [] || tys == [] then vs else [Coerce(vs[0], tys[0])] + CoerceAll(vs[1..], tys[1..])
  }

  /** 32-bit wrapping arithmetic, truncating division, signed comparisons and strict
      logic yielding 0 or 1.  Pointers can be compared for equality with each other and
      with 0; ordered comparisons take them as numbers. */
  function Apply(op: Operator, a: Value, b: Value): Option<Value> {
    match op
    case Arith(o) =>
      if !a.Int? || !b.Int? then None
      else (match o
            case Plus => Some(Int(Wrap(a.n + b.n)))
            case Minus => Some(Int(Wrap(a.n - b.n)))
            case Times => Some(Int(Wrap(a.n * b.n)))
            case Divide =>
              if b.n == 0 || (a.n == -TWO_31 && b.n == -1) then None
              else Some(Int(TruncDiv(a.n, b.n))))
    case Cmp(o) =>
      var (x, y) := (Coerce(a, I32), Coerce(b, I32));
      if (o.Equal? || o.NotEqual?) && !(a.Int? && b.Int?) then
        if Fits(AsPointer(a), I8Ptr) && Fits(AsPointer(b), I8Ptr)
        then Some(Truth((AsPointer(a) == AsPointer(b)) == o.Equal?))
        else None
      else if x.Int? && y.Int? then Some(Truth(Holds(o, x.n, y.n)))
      else None
    case Logic(o) =>
      if !a.Int? || !b.Int? then None
      else Some(Truth(if o.Both? then a.n != 0 && b.n != 0 else a.n != 0 || b.n != 0))
  }

  function OperatorFault(op: Operator, a: Value, b: Value): Fault {
    if op == Arith(Divide) && a.Int? && b.Int? then Division else Confusion
  }

  function AccessFault(p: Value, m: Memory): Fault {
    if p.Null? then NullAccess else if p.Pointer? && p.loc < |m| && m[p.loc].Dead? then Dangling else Confusion
  }

  function Truth(b: bool): Value {
    Int(if b then 1 else 0)
  }

  predicate Holds(o: CmpOp, a: int, b: int) {
    match o
    case Equal => a == b
    case NotEqual => a != b
    case Less => a < b
    case LessEq => a <= b
    case Greater => a > b
    case GreaterEq => a >= b
  }

  predicate FitAll(vs: seq<Value>, tys: seq<TypeRef>) {
    |vs| == |tys| && forall k :: 0 <= k < |vs| ==> Fits(vs[k], tys[k])
  }

  /** What a function without a last value returns. */
  function Default(ty: TypeRef): Option<Value> {
    match ty
    case I32 => Some(Int(0))
    case I8Ptr => Some(Null)
    case Ptr(_) => Some(Null)
    case _ => None
  }

  function ParamBindings(ps: seq<Entry>, base: nat): (b: Bindings)
    ensures |b| == |ps|
    ensures forall k :: 0 <= k < |b| ==> b[k] == Binding(ps[k].name, ps[k].ty, base + k)
  {
    if ps == [] then []
    else ParamBindings(ps[..|ps| - 1], base) + [Binding(ps[|ps| - 1].name, ps[|ps| - 1].ty, base + |ps| - 1)]
  }

  function Truncate(b: Bindings, n: nat): Bindings {
    if n <= |b| then b[..n] else b
  }

  /** The signature table after collecting a whole program: a later form overwrites. */
  function SigsOf(p: Program): Sigs {
    if p == [] then map[] else SigsOf(p[..|p| - 1])[p[|p| - 1].name := SigOf(p[|p| - 1])]
  }

  function EvalExpr(p: Program, e: Expr, b: Bindings, m: Memory, fuel: nat): Res<ValMem>
    decreases fuel, e, 0
  {
    match e
    case Const(n) => Ok(VM(Int(n), m))
    case Var(x) =>
      (match Lookup(b, x)
       case None => Ok(VM(Int(0), m))
       case Some(v) =>
         (match Read(m, Pointer(v.loc), v.ty)
          case None => Stuck(Confusion)
          case Some(w) => Ok(VM(w, m))))
    case Binary(op, lhs, rhs) =>
      (match Taken(op, EvalExpr(p, lhs, b, m, fuel))
       case Stuck(c) => Stuck(c)
       case Timeout => Timeout
       case Ok(l) =>
         (match Taken(op, EvalExpr(p, rhs, b, l.mem, fuel))
          case Stuck(c) => Stuck(c)
          case Timeout => Timeout
          case Ok(r) =>
            (match Apply(op, l.v, r.v)
             case None => Stuck(OperatorFault(op, l.v, r.v))
             case Some(w) => Ok(VM(w, r.mem)))))
    case AddrOf(x) =>
      (match Lookup(b, x)
       case None => Ok(VM(Int(0), m))
       case Some(v) => Ok(VM(Pointer(v.loc), m)))
    case Deref(ty, q) =>
      (match EvalExpr(p, q, b, m, fuel)
       case Stuck(c) => Stuck(c)
       case Timeout => Timeout
       case Ok(a) =>
         (match Read(a.mem, a.v, ty)
          case None => Stuck(AccessFault(a.v, a.mem))
          case Some(w) => Ok(VM(w, a.mem))))
    case CallFn(f, args) =>
      (match EvalList(p, args, b, m, fuel)
       case Stuck(c) => Stuck(c)
       case Timeout => Timeout
       case Ok(a) =>
         (match FindDef(p, f)
          case None => Stuck(Confusion)
          case Some(fn) =>
            var vs := CoerceAll(a.vs, EntryTypes(fn.params));
            if !FitAll(vs, EntryTypes(fn.params)) then Stuck(Confusion)
            else if fuel == 0 then Timeout
            else RunFn(p, fn, vs, a.mem, fuel - 1)))
  }

  /** Arguments are evaluated left to right. */
  function EvalList(p: Program, es: seq<Expr>, b: Bindings, m: Memory, fuel: nat): Res<ValsMem>
    decreases fuel, es, 0
  {
    if es == [] then Ok(VsM([], m))
    else
      match EvalExpr(p, es[0], b, m, fuel)
      case Stuck(c) => Stuck(c)
      case Timeout => Timeout
      case Ok(h) =>
        (match EvalList(p, es[1..], b, h.mem, fuel)
         case Stuck(c) => Stuck(c)
         case Timeout => Timeout
         case Ok(t) => Ok(VsM([h.v] + t.vs, t.mem)))
  }

  /** A call: the parameters become fresh cells, the result must fit the return type, and all
      cells of the call are dead afterwards. */
  function RunFn(p: Program, fn: FnDef, vs: seq<Value>, m: Memory, fuel: nat): Res<ValMem>
    decreases fuel, fn.body, 1
  {
    Retired(Result(fn.ret, ExecList(p, fn.body, ParamBindings(fn.params, |m|), m + vs, fuel)), |m|)
  }

  function Retired(r: Res<ValMem>, base: nat): Res<ValMem> {
    match r
    case Ok(x) => Ok(VM(x.v, Retire(x.mem, base)))
    case _ => r
  }

  /** The value of an implicit return. */
  function Left(last: Option<Value>, ret: TypeRef): Option<Value> {
    if last.Some? then Some(Coerce(last.value, ret)) else Default(ret)
  }

  /** What a call yields: the returned value, or the last value of a body that falls
      through, or the default of the return type. */
  function Result(ret: TypeRef, r: Res<Flow>): Res<ValMem> {
    match r
    case Stuck(c) => Stuck(c)
    case Timeout => Timeout
    case Ok(f) =>
      if ret.Void? then Ok(VM(Int(0), f.mem))
      else
        var v := if f.Returned? then Some(f.v) else Left(f.last, ret);
        if v.Some? && Fits(v.value, ret) then Ok(VM(v.value, f.mem)) else Stuck(Confusion)
  }

  /** The value a `let` stores: an initialiser of type pointer-to-`ty` is read through. */
  function Initial(v: Value, vty: TypeRef, ty: TypeRef, m: Memory): Option<Value> {
    if vty == Ptr(ty) then Read(m, v, ty) else if Fits(v, ty) then Some(v) else None
  }

  /** Branches and loop bodies are scopes; `do` and nested `let` bodies are not. */
  function ExecStmt(p: Program, s: Stmt, b: Bindings, m: Memory, fuel: nat): Res<Flow>
    decreases fuel, s, 0
  {
    match s
    case Nop => Ok(Next(None, b, m))
    case Return(e) =>
      (match EvalExpr(p, e, b, m, fuel)
       case Stuck(c) => Stuck(c)
       case Timeout => Timeout
       case Ok(r) => Ok(Returned(r.v, r.mem)))
    case StoreTo(ty, q, e) =>
      (match EvalExpr(p, q, b, m, fuel)
       case Stuck(c) => Stuck(c)
       case Timeout => Timeout
       case Ok(a) =>
         (match EvalExpr(p, e, b, a.mem, fuel)
          case Stuck(c) => Stuck(c)
          case Timeout => Timeout
          case Ok(r) =>
            (match Write(r.mem, a.v, ty, Coerce(r.v, ty))
             case None => Stuck(AccessFault(a.v, r.mem))
             case Some(m') => Ok(Next(None, b, m')))))
    case Let(x, ty, e, rest) =>
      (match EvalExpr(p, e, b, m, fuel)
       case Stuck(c) => Stuck(c)
       case Timeout => Timeout
       case Ok(r) =>
         var t := ExprType(e, Declared(b), SigsOf(p));
         (match Initial(r.v, t, ty, r.mem)
          case None => Stuck(if t == Ptr(ty) then AccessFault(r.v, r.mem) else Confusion)
          case Some(w) => ExecList(p, rest, b + [Binding(x, ty, |r.mem|)], r.mem + [w], fuel)))
    case Set(x, e) =>
      (match EvalExpr(p, e, b, m, fuel)
       case Stuck(c) => Stuck(c)
       case Timeout => Timeout
       case Ok(r) =>
         (match Lookup(b, x)
          case None => Stuck(Confusion)
          case Some(v) =>
            (match Write(r.mem, Pointer(v.loc), v.ty, r.v)
             case None => Stuck(Confusion)
             case Some(m') => Ok(Next(None, b, m')))))
    case Do(ss) => ExecList(p, ss, b, m, fuel)
    case If(c, thn, els) =>
      (match Coerced(EvalExpr(p, c, b, m, fuel), I32)
       case Stuck(c) => Stuck(c)
       case Timeout => Timeout
       case Ok(r) =>
         if !r.v.Int? then Stuck(Confusion)
         else Leaving(ExecStmt(p, if r.v.n != 0 then thn else els, b, r.mem, fuel), |b|))
    case While(c, body) =>
      (match Coerced(EvalExpr(p, c, b, m, fuel), I32)
       case Stuck(c) => Stuck(c)
       case Timeout => Timeout
       case Ok(r) =>
         if !r.v.Int? then Stuck(Confusion)
         else if r.v.n == 0 then Ok(Next(None, b, r.mem))
         else
           (match Leaving(ExecStmt(p, body, b, r.mem, fuel), |b|)
            case Stuck(c) => Stuck(c)
            case Timeout => Timeout
            case Ok(Returned(v, m')) => Ok(Returned(v, m'))
            case Ok(Next(_, b', m')) =>
              if fuel == 0 then Timeout else ExecStmt(p, s, b', m', fuel - 1)))
    case Eval(e) =>
      (match EvalExpr(p, e, b, m, fuel)
       case Stuck(c) => Stuck(c)
       case Timeout => Timeout
       case Ok(r) => Ok(Next(Some(r.v), b, r.mem)))
  }

  /** Drops the value and the variables of a finished scope. */
  function Leaving(r: Res<Flow>, n: nat): Res<Flow> {
    match r
    case Ok(Next(_, b, m)) => Ok(Next(None, Truncate(b, n), m))
    case _ => r
  }

  /** A sequence yields the value of its last value-producing statement. */
  function ExecList(p: Program, ss: seq<Stmt>, b: Bindings, m: Memory, fuel: nat): Res<Flow>
    decreases fuel, ss, 0
  {
    if ss == [] then Ok(Next(None, b, m))
    else
      match ExecStmt(p, ss[0], b, m, fuel)
      case Stuck(c) => Stuck(c)
      case Timeout => Timeout
      case Ok(Returned(v, m')) => Ok(Returned(v, m'))
      case Ok(Next(last, b', m')) =>
        Joined(last, ExecList(p, ss[1..], b', m', fuel))
  }

  /** A rest without a value of its own keeps the earlier one. */
  function Joined(last: Option<Value>, r: Res<Flow>): Res<Flow> {
    match r
    case Ok(Next(None, b, m)) => Ok(Next(last, b, m))
    case _ => r
  }

  // ---------- static rules ----------

  /** A declaration the generator has seen so far, and whether its scope is still open. */
  datatype Seen = Seen(e: Entry, live: bool)
  type Scope = seq<Seen>

  function Plain(sc: Scope): (env: seq<Entry>)
    ensures |env| == |sc| && forall k :: 0 <= k < |env| ==> env[k] == sc[k].e
  {
    if sc == [] then [] else Plain(sc[..|sc| - 1]) + [sc[|sc| - 1].e]
  }

  /** `x` resolves to a declaration whose scope is open. */
  predicate Resolves(x: string, sc: Scope) {
    var i := Find(Plain(sc), x);
    i >= 0 && sc[i].live
  }

  predicate IsPtr(ty: TypeRef) {
    ty.Ptr? || ty.I8Ptr?
  }

  /** The type of a value, and whether the compiler knows it to be the number 0. */
  datatype Yield = Yield(ty: TypeRef, zero: bool)

  /** The literal 0, and what counts as one: unknown names and calls of `Void` functions. */
  predicate IsZero(e: Expr, env: seq<Entry>, sigs: Sigs) {
    match e
    case Const(n) => n == 0
    case Var(x) => TypeOf(env, x).None?
    case AddrOf(x) => TypeOf(env, x).None?
    case CallFn(f, _) => f in sigs && sigs[f].ret.Void?
    case _ => false
  }

  function YieldOf(e: Expr, env: seq<Entry>, sigs: Sigs): Yield {
    Yield(ExprType(e, env, sigs), IsZero(e, env, sigs))
  }

  /** The types agree, or stage0 converts the value. */
  predicate Converts(y: Yield, target: TypeRef) {
    y.ty == target || (target.I8Ptr? && (y.ty.Ptr? || y.zero)) || (target.I32? && IsPtr(y.ty))
  }

  /** The type at which an operator takes its operands: i8* for the equality of pointers. */
  function OperandType(op: Operator, l: TypeRef, r: TypeRef): TypeRef {
    if op.Cmp? && (op.c.Equal? || op.c.NotEqual?) && (IsPtr(l) || IsPtr(r)) then I8Ptr else I32
  }

  predicate OperandsOk(op: Operator, lhs: Expr, rhs: Expr, env: seq<Entry>, sigs: Sigs) {
    var (l, r) := (YieldOf(lhs, env, sigs), YieldOf(rhs, env, sigs));
    var ty := OperandType(op, l.ty, r.ty);
    Converts(l, ty) && Converts(r, ty)
  }

  predicate ExprOk(e: Expr, sc: Scope, sigs: Sigs) {
    match e
    case Const(_) => true
    case Var(x) => Find(Plain(sc), x) >= 0 ==> Resolves(x, sc)
    case Binary(op, lhs, rhs) =>
      ExprOk(lhs, sc, sigs) && ExprOk(rhs, sc, sigs) && OperandsOk(op, lhs, rhs, Plain(sc), sigs)
    case AddrOf(x) => Resolves(x, sc)
    case Deref(ty, p) => ExprOk(p, sc, sigs) && ExprType(p, Plain(sc), sigs) == Ptr(ty)
    case CallFn(f, args) => f in sigs && ArgsOk(args, sigs[f].params, sc, sigs)
  }

  predicate ArgsOk(es: seq<Expr>, tys: seq<TypeRef>, sc: Scope, sigs: Sigs) {
    if es == [] then tys == []
    else tys != [] && ExprOk(es[0], sc, sigs) && Converts(YieldOf(es[0], Plain(sc), sigs), tys[0]) &&
         ArgsOk(es[1..], tys[1..], sc, sigs)
  }

  /** Whether control can never reach the end of the statement: what `cg_stmt` returns. */
  predicate Exits(s: Stmt) {
    match s
    case Return(_) => true
    case Let(_, _, _, rest) => ListExits(rest)
    case Do(ss) => ListExits(ss)
    case If(_, thn, els) => Exits(thn) && Exits(els)
    case _ => false
  }

  predicate ListExits(ss: seq<Stmt>) {
    ss != [] && (Exits(ss[0]) || ListExits(ss[1..]))
  }

  /** Closes the scopes of everything declared after the first `n` entries. */
  function Close(sc: Scope, n: nat): (r: Scope)
    ensures |r| == |sc|
    ensures forall k :: 0 <= k < |r| ==> r[k] == if k < n then sc[k] else sc[k].(live := false)
  {
    if |sc| <= n then sc
    else Close(sc[..|sc| - 1], n) + [sc[|sc| - 1].(live := false)]
  }

  /** The declarations after a statement and what is known of its value. */
  datatype Checked = Checked(sc: Scope, last: Option<Yield>)

  /** The scoping and typing rules under which stage0's flat environment is sound: no use
      resolves to a declaration inside a branch or loop body that does not enclose it, and
      values have the types they are wanted at, up to the conversions that stage0 makes. */
  function CheckStmt(s: Stmt, sc: Scope, sigs: Sigs, ret: TypeRef): Option<Checked> {
    match s
    case Nop => Some(Checked(sc, None))
    case Return(e) =>
      if ExprOk(e, sc, sigs) && (ret.Void? || ExprType(e, Plain(sc), sigs) == ret)
      then Some(Checked(sc, None)) else None
    case StoreTo(ty, p, e) =>
      if ExprOk(p, sc, sigs) && ExprOk(e, sc, sigs) &&
         ExprType(p, Plain(sc), sigs) == Ptr(ty) && Converts(YieldOf(e, Plain(sc), sigs), ty)
      then Some(Checked(sc, None)) else None
    case Let(x, ty, e, rest) =>
      var t := ExprType(e, Plain(sc), sigs);
      if ExprOk(e, sc, sigs) && (t == ty || t == Ptr(ty))
      then CheckList(rest, sc + [Seen(Entry(x, ty), true)], sigs, ret) else None
    case Set(x, e) =>
      if ExprOk(e, sc, sigs) && Resolves(x, sc) && TypeOf(Plain(sc), x) == Some(ExprType(e, Plain(sc), sigs))
      then Some(Checked(sc, None)) else None
    case Do(ss) => CheckList(ss, sc, sigs, ret)
    case If(c, thn, els) =>
      if !ExprOk(c, sc, sigs) || !Converts(YieldOf(c, Plain(sc), sigs), I32) then None
      else
        (match CheckStmt(thn, sc, sigs, ret)
         case None => None
         case Some(t) =>
           var sc1 := Close(t.sc, |sc|);
           (match CheckStmt(els, sc1, sigs, ret)
            case None => None
            case Some(r) => Some(Checked(Close(r.sc, |sc|), None))))
    case While(c, body) =>
      if !ExprOk(c, sc, sigs) || !Converts(YieldOf(c, Plain(sc), sigs), I32) then None
      else
        (match CheckStmt(body, sc, sigs, ret)
         case None => None
         case Some(r) => Some(Checked(Close(r.sc, |sc|), None)))
    case Eval(e) =>
      if ExprOk(e, sc, sigs) then Some(Checked(sc, Some(YieldOf(e, Plain(sc), sigs)))) else None
  }

  /** Nothing after a statement that exits is compiled, so nothing after it is checked. */
  function CheckList(ss: seq<Stmt>, sc: Scope, sigs: Sigs, ret: TypeRef): Option<Checked> {
    if ss == [] then Some(Checked(sc, None))
    else
      match CheckStmt(ss[0], sc, sigs, ret)
      case None => None
      case Some(h) =>
        if Exits(ss[0]) then Some(Checked(h.sc, None))
        else
          (match CheckList(ss[1..], h.sc, sigs, ret)
           case None => None
           case Some(t) => Some(Checked(t.sc, if t.last.Some? then t.last else h.last)))
  }

  function ParamScope(ps: seq<Entry>): (sc: Scope)
    ensures |sc| == |ps| && forall k :: 0 <= k < |sc| ==> sc[k] == Seen(ps[k], true)
  {
    if ps == [] then [] else ParamScope(ps[..|ps| - 1]) + [Seen(ps[|ps| - 1], true)]
  }

  predicate FnOk(fn: FnDef, sigs: Sigs) {
    (forall i, j :: 0 <= i < j < |fn.params| ==> fn.params[i].name != fn.params[j].name) &&
    match CheckList(fn.body, ParamScope(fn.params), sigs, fn.ret)
    case None => false
    case Some(c) => ListExits(fn.body) || fn.ret.Void? || c.last.None? || Converts(c.last.value, fn.ret)
  }

  /** A program stage0 compiles soundly: every function obeys the rules and functions have
      distinct names. */
  predicate ProgramOk(p: Program) {
    (forall i, j :: 0 <= i < j < |p| ==> p[i].name != p[j].name) &&
    (forall k :: 0 <= k < |p| ==> FnOk(p[k], SigsOf(p)))
  }
}
