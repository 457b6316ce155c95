/** String helpers of stage1 (string.weave) that are built from loops over growable arrays. */
module Strings {
  import opened Values
  import opened Decimal
  import opened Growable

  function Abs(n: int): nat {
    if n < 0 then -n else n
  }

  /** The digits that the collecting loop finds, last digit first, with 32-bit truncating
      division. */
  function Remainders(n: int): seq<int>
    decreases Abs(n)
  {
    if n == 0 then [] else [n - TruncDiv(n, 10) * 10] + Remainders(TruncDiv(n, 10))
  }

  predicate AreDigits(ds: seq<int>) {
    forall k :: 0 <= k < |ds| ==> -10 < ds[k] < 10
  }

  function Emitted(ds: seq<int>): string
    requires AreDigits(ds)
  {
    if ds == [] then "" else [(48 + ds[|ds| - 1]) as char] + Emitted(ds[..|ds| - 1])
  }

  lemma {:induction false} RemaindersSmall(n: int)
    ensures AreDigits(Remainders(n)) && |Remainders(n)| <= Abs(n) / 4 + 4
    decreases Abs(n)
  {
    if n != 0 {
      TruncDivIsTruncating(n, 10);
      RemaindersSmall(TruncDiv(n, 10));
    }
  }

  lemma {:induction false} EmittedLast(d: int, ds: seq<int>)
    requires -10 < d < 10 && AreDigits(ds)
    ensures AreDigits([d] + ds) && Emitted([d] + ds) == Emitted(ds) + [(48 + d) as char]
  {
    var all := [d] + ds;
    if ds == [] {
      assert all[..0] == [];
    } else {
      var init := ds[..|ds| - 1];
      assert all[..|all| - 1] == [d] + init;
      EmittedLast(d, init);
      assert all[|all| - 1] == ds[|ds| - 1];
    }
  }

  /** The digits of a positive number, emitted backwards, are its numeral. */
  lemma {:induction false} EmittedIsNumeral(n: nat)
    requires n > 0
    ensures AreDigits(Remainders(n)) && Emitted(Remainders(n)) == Numeral(n)
  {
    RemaindersSmall(n);
    RemaindersSmall(n / 10);
    EmittedLast(n % 10, Remainders(n / 10));
    if n >= 10 {
      EmittedIsNumeral(n / 10);
    }
  }

  /** The text that int-to-string produces, in 32-bit arithmetic. */
  function IntText(v: int): string {
    var n := if v < 0 then Wrap(-v) else v;
    RemaindersSmall(n);
    if v == 0 then "0" else (if v < 0 then "-" else "") + Emitted(Remainders(n))
  }

  /** The text is the decimal numeral of the number, signed only when negative; the one
      exception is the least 32-bit number. */
  lemma {:induction false} IntTextIsExact(v: int)
    requires -TWO_31 <= v < TWO_31
    ensures IntText(v) == (if v < 0 then "-" else "") + Numeral(Abs(v)) <==> v != -TWO_31
  {
    if v == -TWO_31 {
      MinTextIsWrong();
    } else if v == 0 {
    } else {
      WrapInRange(Abs(v));
      EmittedIsNumeral(Abs(v));
    }
  }

  /** The last character comes from the first remainder. */
  lemma {:induction false} EmittedEnd(n: int)
    requires n != 0
    ensures AreDigits(Remainders(n))
    ensures var s := Emitted(Remainders(n)); s != "" && s[|s| - 1] as int == 48 + (n - TruncDiv(n, 10) * 10)
  {
    hide TruncDiv;
    RemaindersSmall(n);
    RemaindersSmall(TruncDiv(n, 10));
    TruncDivIsTruncating(n, 10);
    EmittedLast(n - TruncDiv(n, 10) * 10, Remainders(TruncDiv(n, 10)));
  }

  /** Negating the least number gives itself, so its digits come out negative: the text ends
      in the character 40, an open parenthesis. */
  lemma {:induction false} MinTextIsWrong()
    ensures IntText(-TWO_31)[|IntText(-TWO_31)| - 1] == '('
    ensures IntText(-TWO_31) != "-" + Numeral(TWO_31)
  {
    hide Emitted, Remainders, Numeral;
    assert Wrap(TWO_31) == -TWO_31 && TruncDiv(-TWO_31, 10) == -214748364;
    EmittedEnd(-TWO_31);
    var t := Numeral(TWO_31);
    assert IsDigit(t[|t| - 1]) && ("-" + t)[|t|] == t[|t| - 1];
  }

  /** The digit-collecting loop of int-to-string. */
  method CollectDigits(n0: int) returns (digits: GrowArray<int>)
    requires Abs(n0) <= TWO_31
    ensures digits.Valid() && fresh(digits) && fresh(digits.data) && digits.Contents() == Remainders(n0)
  {
    hide TruncDiv, Remainders, Pow2;
    var n := n0;
    digits := new GrowArray<int>(4);
    RemaindersSmall(n0);
    assert digits.Contents() + Remainders(n) == Remainders(n0);
    while n != 0
      invariant digits.Valid() && fresh(digits) && fresh(digits.data)
      invariant digits.Contents() + Remainders(n) == Remainders(n0)
      decreases Abs(n)
    {
      TruncDivIsTruncating(n, 10);
      RemaindersStep(digits.Contents(), n);
      var d := TruncDiv(n, 10);
      var r := n - d * 10;
      var rc := digits.Append(r);
      n := d;
    }
    NoRemainders(digits.Contents());
  }

  lemma {:induction false} RemaindersStep(had: seq<int>, n: int)
    requires n != 0
    ensures var d := TruncDiv(n, 10);
            had + Remainders(n) == had + [n - d * 10] + Remainders(d) && Abs(d) < Abs(n) && |Remainders(n)| > 0
  {
    TruncDivIsTruncating(n, 10);
  }

  lemma {:induction false} NoRemainders(had: seq<int>)
    ensures had + Remainders(0) == had
  {
  }

  /** The emitting loop of int-to-string: from the last digit to the first. */
  method EmitDigits(digits: GrowArray<int>, b: GrowArray<char>)
    requires digits.Valid() && b.Valid() && AreDigits(digits.Contents()) && b.len + digits.len <= MAX_NEED
    modifies b, b.data
    ensures b.Valid() && b.Contents() == old(b.Contents()) + Emitted(digits.Contents())
  {
    hide Emitted, Pow2;
    ghost var ds := digits.Contents();
    ghost var had := b.Contents();
    var i := digits.len - 1;
    assert ds[..i + 1] == ds;
    while i >= 0
      invariant -1 <= i < |ds| && digits.Valid() && digits.Contents() == ds
      invariant b.Valid() && (b.data == old(b.data) || fresh(b.data)) && |b.Contents()| + i + 1 == |had| + |ds|
      invariant b.Contents() + Emitted(ds[..i + 1]) == had + Emitted(ds)
    {
      var d := digits.Get(i, 0);
      EmittedStep(b.Contents(), ds[..i + 1]);
      assert ds[..i + 1][..i] == ds[..i];
      var rc := b.Append((48 + d) as char);
      i := i - 1;
    }
    NoneEmitted(b.Contents());
    assert ds[..0] == [];
  }

  lemma {:induction false} EmittedStep(had: string, ds: seq<int>)
    requires AreDigits(ds) && ds != []
    ensures had + Emitted(ds) == had + [(48 + ds[|ds| - 1]) as char] + Emitted(ds[..|ds| - 1])
  {
  }

  lemma {:induction false} NoneEmitted(had: string)
    ensures had + Emitted([]) == had
  {
  }

  /** int-to-string: the sign, and the digits. */
  method IntToString(v: int) returns (s: string)
    requires -TWO_31 <= v < TWO_31
    ensures s == IntText(v)
  {
    hide Remainders, Emitted, Pow2;
    if v == 0 {
      return "0";
    }
    var n := if v < 0 then Wrap(-v) else v;
    RemaindersSmall(n);
    var digits := CollectDigits(n);
    var b := new GrowArray<char>(6);
    if v < 0 {
      var rc := b.Append('-');
    }
    assert b.Contents() == if v < 0 then "-" else "";
    EmitDigits(digits, b);
    s := b.ToSeq();
  }

  function Clamp(n: int, hi: nat): (r: nat)
    ensures r <= hi
  {
    if n < 0 then 0 else if n > hi then hi else n
  }

  /** The part of a text within its bounds. */
  function Slice(s: string, start: int, len: int): string {
    var a := Clamp(start, |s|);
    s[a..a + Clamp(len, |s| - a)]
  }

  /** The bounds add up within 32 bits, after the near end has been cut to the text. */
  predicate BoundsAdd(s: string, start: int, len: int) {
    Clamp(start, |s|) + (if len < 0 then 0 else len) < TWO_31
  }

  /** The test of the far end adds in 32 bits: it tells whether the bounds reach beyond the
      text if and only if they add up.  If they do not, no length is cut, and the loop goes on
      to append at least 2^30 characters; unless the text itself fills the largest buffer,
      these are too many, and growing never meets the request. */
  lemma {:induction false} FarEndTest(s: string, start: int, len: int, k: nat, rounds: nat)
    requires |s| <= MAX_NEED && -TWO_31 <= start < TWO_31 && -TWO_31 <= len < TWO_31 && k <= 30
    ensures var a, n := Clamp(start, |s|), if len < 0 then 0 else len;
            ((Wrap(a + n) > |s| <==> a + n > |s|) <==> BoundsAdd(s, start, len)) &&
            (!BoundsAdd(s, start, len) ==> n >= MAX_NEED) &&
            (!BoundsAdd(s, start, len) && a < MAX_NEED ==> Doubled(Pow2(k), rounds) < MAX_NEED + 1 <= n)
  {
    hide Doubled, Pow2;
    GrowthHangs(k, MAX_NEED + 1, rounds);
  }

  /** string-slice: out-of-range bounds are cut to the text. */
  method StringSlice(s: string, start: int, len: int) returns (r: string)
    requires |s| <= MAX_NEED && BoundsAdd(s, start, len)
    ensures r == Slice(s, start, len)
  {
    hide Pow2, Wrap;
    var a := if start < 0 then 0 else start;
    var n := if len < 0 then 0 else len;
    if a > |s| {
      a := |s|;
    }
    WrapInRange(a + n);
    if Wrap(a + n) > |s| {
      n := |s| - a;
    }
    if n == 0 {
      return "";
    }
    var b := new GrowArray<char>(6);
    var i := 0;
    while i < n
      invariant 0 <= i <= n && a + n <= |s|
      invariant fresh(b) && fresh(b.data) && b.Valid() && b.Contents() == s[a..a + i]
    {
      assert s[a..a + i + 1] == s[a..a + i] + [s[a + i]];
      var rc := b.Append(s[a + i]);
      i := i + 1;
    }
    r := b.ToSeq();
  }
}
