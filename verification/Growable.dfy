/** The growable arrays of stage1: string arrays, integer arrays and byte buffers
    (arrays.weave, buffers.weave).  In this model they differ in the first capacity only: 8, 16
    and 64.  In the source the integer and string arrays also multiply their capacity by the
    size of an element to get a size in bytes, which leaves 32 bits before the capacity does;
    sizes in bytes are not part of this model. */
module Growable {
  import opened Values

  function Pow2(k: nat): (p: nat)
    ensures p > 0
  {
    if k == 0 then 1 else 2 * Pow2(k - 1)
  }

  lemma {:induction false} Pow2Grows(j: nat, k: nat)
    requires j <= k
    ensures Pow2(j) <= Pow2(k) && (j < k ==> 2 * Pow2(j) <= Pow2(k))
    decreases k - j
  {
    if j < k {
      Pow2Grows(j + 1, k);
    }
  }

  /** The largest request that growing can meet. */
  const MAX_NEED := 0x4000_0000

  lemma {:induction false} MaxNeedIsPower()
    ensures Pow2(30) == MAX_NEED
  {
    assert Pow2(6) == 64;
    assert Pow2(12) == 64 * Pow2(6) == 4096;
    assert Pow2(18) == 64 * Pow2(12) == 262144;
    assert Pow2(24) == 64 * Pow2(18) == 16777216;
    assert Pow2(30) == 64 * Pow2(24);
  }

  /** Below the limit, doubling a power of two stays within 32 bits. */
  lemma {:induction false} DoublingFits(k: nat, need: int)
    requires Pow2(k) < need <= MAX_NEED
    ensures Wrap(Pow2(k) * 2) == Pow2(k + 1) == 2 * Pow2(k) <= MAX_NEED
  {
    MaxNeedIsPower();
    if k >= 30 {
      Pow2Grows(30, k);
    }
    Pow2Grows(k + 1, 30);
    WrapInRange(Pow2(k) * 2);
  }

  /** `n` rounds of the doubling loop, in 32 bits. */
  function Doubled(cap: int, n: nat): int {
    if n == 0 then cap else Wrap(Doubled(cap, n - 1) * 2)
  }

  lemma {:induction false} DoublesExactly(k: nat, n: nat)
    requires k + n <= 30
    ensures Doubled(Pow2(k), n) == Pow2(k + n)
  {
    if n > 0 {
      DoublesExactly(k, n - 1);
      MaxNeedIsPower();
      Pow2Grows(k + n, 30);
      WrapInRange(Pow2(k + n));
    }
  }

  lemma {:induction false} DoublesToNothing(k: nat, n: nat)
    requires k <= 30 && n > 30 - k
    ensures Doubled(Pow2(k), n) == if n == 31 - k then -TWO_31 else 0
  {
    if n == 31 - k {
      DoublesExactly(k, n - 1);
      MaxNeedIsPower();
    } else {
      DoublesToNothing(k, n - 1);
    }
  }

  /** Above the limit the doubling loop never ends: the capacity becomes negative and then
      stays 0, below every such request. */
  lemma {:induction false} GrowthHangs(k: nat, need: int, n: nat)
    requires k <= 30 && MAX_NEED < need < TWO_31
    ensures Doubled(Pow2(k), n) < need
  {
    if n <= 30 - k {
      DoublesExactly(k, n);
      MaxNeedIsPower();
      Pow2Grows(k + n, 30);
    } else {
      DoublesToNothing(k, n);
    }
  }

  /** A growable array; `base` is the exponent of its first capacity.  `copied` counts the
      elements ever moved by growing, `peak` is the largest request so far. */
  class GrowArray<T(0)> {
    const base: nat
    var data: array<T>
    var len: nat
    ghost var exp: nat
    ghost var copied: nat
    ghost var peak: nat

    ghost predicate Valid()
      reads this, data
    {
      len <= data.Length && base <= 29 && (data.Length == 0 || (data.Length == Pow2(exp) && base <= exp)) &&
      copied <= data.Length && len <= peak <= MAX_NEED &&
      (data.Length <= Pow2(base) || data.Length < 2 * peak)
    }

    ghost function Contents(): seq<T>
      requires Valid()
      reads this, data
    {
      data[..len]
    }

    /** array-str-new, array-i32-new, buffer-new */
    constructor (firstExponent: nat)
      requires firstExponent <= 29
      ensures Valid() && Contents() == [] && base == firstExponent && fresh(data)
    {
      base, len, exp, copied, peak := firstExponent, 0, 0, 0, 0;
      data := new T[0];
    }

    /** array-str-grow, array-i32-grow, buffer-grow: contents stay, the capacity is a power
        of two that meets the request, and all moves together never exceed it. */
    method Grow(need: int) returns (rc: int)
      requires Valid() && need <= MAX_NEED
      modifies this`data, this`exp, this`copied, this`peak
      ensures Valid() && Contents() == old(Contents()) && (data == old(data) || fresh(data))
      ensures rc == if need < 0 then -1 else 0
      ensures need >= 0 ==> need <= data.Length && peak == if old(peak) < need then need else old(peak)
    {
      hide Wrap, Pow2;
      if need < 0 {
        return -1;
      }
      if peak < need {
        peak := need;
      }
      if data.Length >= need {
        return 0;
      }
      ghost var k: nat := if data.Length == 0 then base else exp;
      var ncap := if data.Length == 0 then Pow2(base) else data.Length;
      while ncap < need
        invariant ncap == Pow2(k) && base <= k
        invariant ncap <= Pow2(base) || ncap < 2 * need
        invariant data.Length == 0 || data.Length <= ncap
        invariant data.Length == 0 || data.Length == ncap || 2 * data.Length <= ncap
        modifies {}
        decreases need - ncap
      {
        DoublingFits(k, need);
        ncap := Wrap(ncap * 2);
        k := k + 1;
      }
      var bigger := new T[ncap];
      forall i | 0 <= i < len {
        bigger[i] := data[i];
      }
      copied := copied + len;
      data, exp := bigger, k;
      rc := 0;
    }

    /** array-str-append, array-i32-append, buffer-append-byte */
    method Append(v: T) returns (rc: int)
      requires Valid() && len < MAX_NEED
      modifies this, data
      ensures Valid() && Contents() == old(Contents()) + [v] && rc == 0 && (data == old(data) || fresh(data))
    {
      rc := Grow(len + 1);
      data[len] := v;
      len := len + 1;
    }

    /** buffer-append-string */
    method AppendAll(vs: seq<T>) returns (rc: int)
      requires Valid() && len + |vs| <= MAX_NEED
      modifies this, data
      ensures Valid() && Contents() == old(Contents()) + vs && rc == 0 && (data == old(data) || fresh(data))
    {
      rc := Grow(len + |vs|);
      forall i | 0 <= i < |vs| {
        data[len + i] := vs[i];
      }
      len := len + |vs|;
    }

    /** buffer-clear: the capacity is kept. */
    method Clear()
      requires Valid()
      modifies this`len
      ensures Valid() && Contents() == []
    {
      len := 0;
    }

    /** array-str-get, array-i32-get: the default outside. */
    method Get(i: int, default: T) returns (v: T)
      requires Valid()
      ensures v == if 0 <= i < |Contents()| then Contents()[i] else default
    {
      v := if i < 0 || i >= len then default else data[i];
    }

    /** array-i32-set */
    method Set(i: int, v: T) returns (rc: int)
      requires Valid()
      modifies data
      ensures Valid()
      ensures if 0 <= i < |old(Contents())| then rc == 0 && Contents() == old(Contents())[i := v]
              else rc == -1 && Contents() == old(Contents())
    {
      if i < 0 || i >= len {
        return -1;
      }
      data[i] := v;
      rc := 0;
    }

    /** buffer-to-string: a copy, so later appends do not change it. */
    method ToSeq() returns (s: seq<T>)
      requires Valid()
      ensures s == Contents()
    {
      s := data[..len];
    }
  }
}
