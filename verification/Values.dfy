/** Run-time values and memory, shared by the semantics of Weave and of the emitted code.

    A memory is the sequence of all stack cells ever allocated; a pointer is an index
    into it.  When a function returns its cells are dead: they keep their places, so that a
    pointer to them does not come to mean another cell, but cannot be read or written. */
module Values {
  import opened Wrappers
  import opened Types

  datatype Value = Int(n: int) | Bool(b: bool) | Pointer(loc: nat) | Null | Undef | Dead

  type Memory = seq<Value>

  /** Where cells are in the address space of the machine.  Nothing is known of it, so what is
      proved holds wherever they are. */
  const ADDRESSES: map<nat, int>

  /** A pointer as a 32-bit number: its address cut to 32 bits. */
  function AddressOf(p: Value): int {
    if p.Pointer? && p.loc in ADDRESSES then Wrap(ADDRESSES[p.loc]) else 0
  }

  /** Whether a value may be stored in, or passed as, a location of the given type. */
  predicate Fits(v: Value, ty: TypeRef) {
    match ty
    case I32 => v.Int?
    case I8Ptr => v.Pointer? || v.Null?
    case Ptr(_) => v.Pointer? || v.Null?
    case _ => false
  }

  /** Reading a cell fails on a bad address, on an uninitialised or dead cell and on a value
      of another type. */
  function Read(m: Memory, p: Value, ty: TypeRef): Option<Value> {
    if p.Pointer? && p.loc < |m| && Fits(m[p.loc], ty) then Some(m[p.loc]) else None
  }

  function Write(m: Memory, p: Value, ty: TypeRef, v: Value): Option<Memory> {
    if p.Pointer? && p.loc < |m| && !m[p.loc].Dead? && Fits(v, ty) then Some(m[p.loc := v]) else None
  }

  /** The memory after a function whose cells start at `base` has returned. */
  function Retire(m: Memory, base: nat): (r: Memory)
    ensures |r| == |m|
    ensures forall k :: 0 <= k < |m| ==> r[k] == if k < base then m[k] else Dead
  {
    if |m| <= base then m else Retire(m[..|m| - 1], base) + [Dead]
  }

  const TWO_31 := 0x8000_0000
  const TWO_32 := 0x1_0000_0000

  /** The signed 32-bit integer congruent to `n` modulo 2^32. */
  function Wrap(n: int): int {
    (n + TWO_31) % TWO_32 - TWO_31
  }

  /** Division rounding toward zero; Dafny's own `/` is Euclidean. */
  function TruncDiv(a: int, b: int): int
    requires b != 0
  {
    if a >= 0 then a / b else -((-a) / b)
  }

  /** `TruncDiv` is the truncating quotient: the remainder is smaller than the divisor and
      takes the sign of the dividend. */
  lemma {:induction false} TruncDivIsTruncating(a: int, b: int)
    requires b != 0
    ensures var r := a - b * TruncDiv(a, b);
            (if r < 0 then -r else r) < (if b < 0 then -b else b) &&
            (r == 0 || (r < 0 <==> a < 0))
  {
    var d := if a >= 0 then a else -a;
    assert d == b * (d / b) + d % b;
    if a < 0 {
      assert b * TruncDiv(a, b) == -(b * (d / b));
    }
  }

  lemma {:induction false} WrapInRange(n: int)
    ensures -TWO_31 <= Wrap(n) < TWO_31
    ensures (Wrap(n) - n) % TWO_32 == 0
    ensures -TWO_31 <= n < TWO_31 ==> Wrap(n) == n
  {
    var q := (n + TWO_31) / TWO_32;
    assert Wrap(n) - n == -q * TWO_32;
    assert (-q * TWO_32) % TWO_32 == 0;
  }
}
