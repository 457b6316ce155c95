/** The LLVM subset that stage0 emits, with a small-step semantics. */
module Ir {
  import opened Wrappers
  import opened Types
  import opened Values

  datatype BinOp = Add | Sub | Mul | SDiv
  datatype Pred = Eq | Ne | Slt | Sle | Sgt | Sge
  datatype BoolOp = And | Or

  /** An operand as printed: a constant, `%tN`, the address `%v_x_1` of an alloca, the
      incoming parameter `%p_v_x_1`, `null` or `zeroinitializer`. */
  datatype Operand = Const(n: int) | Temp(t: nat) | Slot(slot: string) | Param(param: string) | NullOp | ZeroInit

  datatype Arg = Arg(ty: TypeRef, v: Operand)

  /** `pty` is the pointer type spelled in a load or a store. */
  datatype Instr =
    | Alloca(slot: string, ty: TypeRef)
    | Load(t: nat, ty: TypeRef, pty: TypeRef, p: Operand)
    | Store(ty: TypeRef, v: Operand, pty: TypeRef, p: Operand)
    | Bin(t: nat, bop: BinOp, a: Operand, b: Operand)
    | Icmp(t: nat, pred: Pred, cty: TypeRef, a: Operand, b: Operand)
    | BoolOp(t: nat, lop: BoolOp, a: Operand, b: Operand)
    | Zext(t: nat, a: Operand)
    | PtrToInt(t: nat, from: TypeRef, a: Operand)
    | NullToPtr(t: nat)
    | BitcastI8(t: nat, from: TypeRef, a: Operand)
    | Call(dst: Option<nat>, ret: TypeRef, f: string, args: seq<Arg>)
    | Label(l: nat)
    | Br(l: nat)
    | CondBr(c: nat, l1: nat, l2: nat)
    | Ret(rty: TypeRef, rv: Operand)
    | RetVoid

  datatype IrParam = IrParam(name: string, ty: TypeRef)
  datatype IrFn = IrFn(name: string, ret: TypeRef, params: seq<IrParam>, code: seq<Instr>)
  type Module = seq<IrFn>

  /** `base` is where the cells of the frame start. */
  datatype Frame = Frame(fn: IrFn, pc: nat, temps: map<nat, Value>, slots: map<string, nat>, args: seq<Value>,
    base: nat)
  datatype State =
    | Running(fr: Frame, callers: seq<Frame>, mem: Memory)
    | Done(v: Value, mem: Memory)
    | Wrong

  function FindFn(m: Module, f: string): Option<IrFn> {
    if m == [] then None else if m[0].name == f then Some(m[0]) else FindFn(m[1..], f)
  }

  function FindParam(ps: seq<IrParam>, x: string): Option<nat> {
    if ps == [] then None
    else if ps[0].name == x then Some(0)
    else match FindParam(ps[1..], x)
         case None => None
         case Some(i) => Some(i + 1)
  }

  /** The position of the first definition of a label. */
  function FindLabel(code: seq<Instr>, l: nat): (r: Option<nat>)
    ensures r.Some? ==> r.value < |code| && code[r.value] == Label(l)
  {
    if code == [] then None
    else if code[0] == Label(l) then Some(0)
    else match FindLabel(code[1..], l)
         case None => None
         case Some(i) => Some(i + 1)
  }

  function EvalOp(o: Operand, fr: Frame): Option<Value> {
    match o
    case Const(n) => Some(Int(n))
    case Temp(t) => if t in fr.temps then Some(fr.temps[t]) else None
    case Slot(s) => if s in fr.slots then Some(Pointer(fr.slots[s])) else None
    case Param(x) =>
      (match FindParam(fr.fn.params, x)
       case None => None
       case Some(i) => if i < |fr.args| then Some(fr.args[i]) else None)
    case NullOp => Some(Null)
    case ZeroInit => None
  }

  function EvalArgs(args: seq<Arg>, fr: Frame): Option<seq<Value>> {
    if args == [] then Some([])
    else match (EvalOp(args[0].v, fr), EvalArgs(args[1..], fr))
         case (Some(v), Some(vs)) => if Fits(v, args[0].ty) then Some([v] + vs) else None
         case _ => None
  }

  function ArgTypes(args: seq<Arg>): seq<TypeRef> {
    if args == [] then [] else [args[0].ty] + ArgTypes(args[1..])
  }

  function ParamTypes(ps: seq<IrParam>): seq<TypeRef> {
    if ps == [] then [] else [ps[0].ty] + ParamTypes(ps[1..])
  }

  function EvalBin(op: BinOp, a: Value, b: Value): Option<Value> {
    if !a.Int? || !b.Int? then None
    else match op
         case Add => Some(Int(Wrap(a.n + b.n)))
         case Sub => Some(Int(Wrap(a.n - b.n)))
         case Mul => Some(Int(Wrap(a.n * b.n)))
         case SDiv =>
           if b.n == 0 || (a.n == -TWO_31 && b.n == -1) then None
           else Some(Int(TruncDiv(a.n, b.n)))
  }

  function EvalIcmp(pred: Pred, ty: TypeRef, a: Value, b: Value): Option<Value> {
    if !Fits(a, ty) || !Fits(b, ty) then None
    else if pred.Eq? then Some(Bool(a == b))
    else if pred.Ne? then Some(Bool(a != b))
    else if !ty.I32? then None
    else Some(Bool(match pred
                   case Slt => a.n < b.n
                   case Sle => a.n <= b.n
                   case Sgt => a.n > b.n
                   case _ => a.n >= b.n))
  }

  function EvalBool(op: BoolOp, a: Value, b: Value): Option<Value> {
    if !a.Bool? || !b.Bool? then None
    else match op
         case And => Some(Bool(a.b && b.b))
         case Or => Some(Bool(a.b || b.b))
  }

  function Enter(fn: IrFn, args: seq<Value>, callers: seq<Frame>, mem: Memory): State {
    Running(Frame(fn, 0, map[], map[], args, |mem|), callers, mem)
  }

  /** Control returns to the innermost caller, whose pc is still at its call. */
  function Leave(v: Value, callers: seq<Frame>, mem: Memory): State {
    if callers == [] then Done(v, mem)
    else
      var c := callers[0];
      if c.pc < |c.fn.code| && c.fn.code[c.pc].Call? then
        match c.fn.code[c.pc].dst
        case None => Running(c.(pc := c.pc + 1), callers[1..], mem)
        case Some(t) => Running(c.(pc := c.pc + 1, temps := c.temps[t := v]), callers[1..], mem)
      else Wrong
  }

  /** Defines temp `t` and moves on, or goes wrong when there is no value. */
  function Define(fr: Frame, callers: seq<Frame>, mem: Memory, t: nat, v: Option<Value>): State {
    match v
    case None => Wrong
    case Some(x) => Running(fr.(pc := fr.pc + 1, temps := fr.temps[t := x]), callers, mem)
  }

  function Jump(fr: Frame, callers: seq<Frame>, mem: Memory, l: nat): State {
    match FindLabel(fr.fn.code, l)
    case None => Wrong
    case Some(i) => Running(fr.(pc := i), callers, mem)
  }

  function ExecCall(m: Module, fr: Frame, callers: seq<Frame>, mem: Memory, i: Instr): State
    requires i.Call?
  {
    match (FindFn(m, i.f), EvalArgs(i.args, fr))
    case (Some(fn), Some(vs)) =>
      if fn.ret == i.ret && (i.dst.None? <==> i.ret.Void?) && ParamTypes(fn.params) == ArgTypes(i.args)
      then Enter(fn, vs, [fr] + callers, mem) else Wrong
    case _ => Wrong
  }

  function Exec(m: Module, fr: Frame, callers: seq<Frame>, mem: Memory, i: Instr): State {
    match i
    case Alloca(s, ty) =>
      Running(fr.(pc := fr.pc + 1, slots := fr.slots[s := |mem|]), callers, mem + [Undef])
    case Load(t, ty, pty, p) =>
      if pty != Ptr(ty) then Wrong
      else (match EvalOp(p, fr)
            case None => Wrong
            case Some(a) => Define(fr, callers, mem, t, Read(mem, a, ty)))
    case Store(ty, v, pty, p) =>
      if pty != Ptr(ty) then Wrong
      else (match (EvalOp(v, fr), EvalOp(p, fr))
            case (Some(x), Some(a)) =>
              (match Write(mem, a, ty, x)
               case None => Wrong
               case Some(mem') => Running(fr.(pc := fr.pc + 1), callers, mem'))
            case _ => Wrong)
    case Bin(t, op, a, b) =>
      (match (EvalOp(a, fr), EvalOp(b, fr))
       case (Some(x), Some(y)) => Define(fr, callers, mem, t, EvalBin(op, x, y))
       case _ => Wrong)
    case Icmp(t, pred, ty, a, b) =>
      (match (EvalOp(a, fr), EvalOp(b, fr))
       case (Some(x), Some(y)) => Define(fr, callers, mem, t, EvalIcmp(pred, ty, x, y))
       case _ => Wrong)
    case BoolOp(t, op, a, b) =>
      (match (EvalOp(a, fr), EvalOp(b, fr))
       case (Some(x), Some(y)) => Define(fr, callers, mem, t, EvalBool(op, x, y))
       case _ => Wrong)
    case Zext(t, a) =>
      (match EvalOp(a, fr)
       case Some(Bool(b)) => Define(fr, callers, mem, t, Some(Int(if b then 1 else 0)))
       case _ => Wrong)
    case PtrToInt(t, from, a) =>
      (match EvalOp(a, fr)
       case Some(x) =>
         if (from.Ptr? || from.I8Ptr?) && Fits(x, from)
         then Define(fr, callers, mem, t, Some(Int(AddressOf(x)))) else Wrong
       case None => Wrong)
    case NullToPtr(t) => Define(fr, callers, mem, t, Some(Null))
    case BitcastI8(t, from, a) =>
      (match EvalOp(a, fr)
       case Some(x) => if from.Ptr? && Fits(x, from) then Define(fr, callers, mem, t, Some(x)) else Wrong
       case None => Wrong)
    case Call(_, _, _, _) => ExecCall(m, fr, callers, mem, i)
    case Label(_) => Running(fr.(pc := fr.pc + 1), callers, mem)
    case Br(l) => Jump(fr, callers, mem, l)
    case CondBr(c, l1, l2) =>
      if c in fr.temps && fr.temps[c].Bool? then Jump(fr, callers, mem, if fr.temps[c].b then l1 else l2)
      else Wrong
    case Ret(ty, v) =>
      (match EvalOp(v, fr)
       case Some(x) => if ty == fr.fn.ret && Fits(x, ty) then Leave(x, callers, Retire(mem, fr.base)) else Wrong
       case None => Wrong)
    case RetVoid => if fr.fn.ret.Void? then Leave(Int(0), callers, Retire(mem, fr.base)) else Wrong
  }

  /** One step.  A finished or stuck state stays as it is; running off the end is stuck. */
  function Step(m: Module, s: State): State {
    if !s.Running? then s
    else if s.fr.pc < |s.fr.fn.code| then Exec(m, s.fr, s.callers, s.mem, s.fr.fn.code[s.fr.pc])
    else Wrong
  }

  function Iter(m: Module, s: State, n: nat): State
    decreases n
  {
    if n == 0 then s else Iter(m, Step(m, s), n - 1)
  }

  lemma {:induction false} IterPlus(m: Module, s: State, n: nat, k: nat)
    ensures Iter(m, s, n + k) == Iter(m, Iter(m, s, n), k)
    decreases n
  {
    if n > 0 {
      IterPlus(m, Step(m, s), n - 1, k);
    }
  }

  /** A state that is not running is final. */
  lemma {:induction false} IterFinal(m: Module, s: State, n: nat, k: nat)
    requires n <= k
    requires !Iter(m, s, n).Running?
    ensures Iter(m, s, k) == Iter(m, s, n)
  {
    IterPlus(m, s, n, k - n);
    IterStays(m, Iter(m, s, n), k - n);
  }

  lemma {:induction false} IterStays(m: Module, s: State, k: nat)
    requires !s.Running?
    ensures Iter(m, s, k) == s
    decreases k
  {
    if k > 0 {
      IterStays(m, s, k - 1);
    }
  }
}
