/** String constants of stage0 (expr.c): how a text is written into the module and what LLVM
    reads there. */
module Constants {
  import opened Wrappers

  /** An entry of the table 0123456789ABCDEF. */
  function HexDigit(d: nat): char
    requires d < 16
  {
    if d < 10 then '0' + d as char else 'A' + (d - 10) as char
  }

  predicate IsByte(c: char) {
    c as int < 256
  }

  predicate AreBytes(s: string) {
    forall k :: 0 <= k < |s| ==> IsByte(s[k])
  }

  function Hex(c: char): (h: string)
    requires IsByte(c)
    ensures |h| == 3
  {
    ['\\', HexDigit(c as int / 16), HexDigit(c as int % 16)]
  }

  /** One character as emit_escaped_c_string writes it. */
  function EscapeChar(c: char): string
    requires IsByte(c)
  {
    if c == '\\' then "\\5C"
    else if c == '"' then "\\22"
    else if c == '\n' then "\\0A"
    else if c == '\r' then "\\0D"
    else if c == '\t' then "\\09"
    else if c as int < 32 || c as int >= 127 then Hex(c)
    else [c]
  }

  function Escape(s: string): string
    requires AreBytes(s)
  {
    if s == "" then ""
    else
      assert AreBytes(s[1..]);
      EscapeChar(s[0]) + Escape(s[1..])
  }

  function HexValue(c: char): Option<nat> {
    if '0' <= c <= '9' then Some(c as int - '0' as int)
    else if 'A' <= c <= 'F' then Some(c as int - 'A' as int + 10)
    else None
  }

  /** What LLVM reads between the quotes of a c"..." constant: a backslash and two hex digits
      denote a byte, other characters themselves; a bare quote ends the constant. */
  function Decode(t: string): Option<string> {
    if t == "" then Some("")
    else if t[0] == '"' then None
    else if t[0] == '\\' then
      if |t| < 3 || HexValue(t[1]).None? || HexValue(t[2]).None? then None
      else Prepend((16 * HexValue(t[1]).value + HexValue(t[2]).value) as char, Decode(t[3..]))
    else Prepend(t[0], Decode(t[1..]))
  }

  function Prepend(c: char, r: Option<string>): Option<string> {
    match r
    case None => None
    case Some(s) => Some([c] + s)
  }

  lemma {:induction false} EscapeCharDecodes(c: char, rest: string)
    requires IsByte(c)
    ensures Decode(EscapeChar(c) + rest) == Prepend(c, Decode(rest))
  {
    var e := EscapeChar(c);
    var t := e + rest;
    if |e| == 1 {
      assert t[1..] == rest;
    } else {
      assert e == Hex(c);
      var h, l := c as int / 16, c as int % 16;
      assert t[3..] == rest && t[0] == '\\' && t[1] == HexDigit(h) && t[2] == HexDigit(l);
      assert HexValue(t[1]) == Some(h) && HexValue(t[2]) == Some(l) && 16 * h + l == c as int;
    }
  }

  /** Decoding the constant gives back the source bytes and one zero. */
  lemma {:induction false} ConstantIsFaithful(s: string)
    requires AreBytes(s)
    ensures Decode(Escape(s) + "\\00") == Some(s + [0 as char])
  {
    if s == "" {
      var z := "\\00";
      assert Escape(s) + z == z && z[0] == '\\' && z[1] == '0' && z[2] == '0' && z[3..] == "";
      assert HexValue('0') == Some(0) && Decode(z) == Prepend(0 as char, Some(""));
      assert [0 as char] + "" == s + [0 as char];
    } else {
      assert Escape(s) + "\\00" == EscapeChar(s[0]) + (Escape(s[1..]) + "\\00");
      ConstantIsFaithful(s[1..]);
      EscapeCharDecodes(s[0], Escape(s[1..]) + "\\00");
      assert [s[0]] + (s[1..] + [0 as char]) == s + [0 as char];
    }
  }

  lemma {:induction false} EscapeInjective(s: string, t: string)
    requires AreBytes(s) && AreBytes(t) && Escape(s) == Escape(t)
    ensures s == t
  {
    ConstantIsFaithful(s);
    ConstantIsFaithful(t);
    assert (s + [0 as char])[..|s|] == s && (t + [0 as char])[..|t|] == t;
  }

  /** A private constant `[size x i8] c"text"` of the module. */
  datatype Global = Global(id: nat, size: nat, text: string)

  /** The constants emitted so far, numbered by a counter that is never reset. */
  class StringPool {
    var globals: seq<Global>
    var nextId: nat

    ghost predicate Valid()
      reads this
    {
      |globals| == nextId &&
      forall k :: 0 <= k < |globals| ==>
        globals[k].id == k && Decode(globals[k].text).Some? && |Decode(globals[k].text).value| == globals[k].size
    }

    constructor ()
      ensures Valid() && globals == []
    {
      globals, nextId := [], 0;
    }

    /** emit_escaped_c_string */
    method EmitEscaped(s: string) returns (out: string)
      requires AreBytes(s)
      ensures out == Escape(s)
    {
      out := "";
      var i := 0;
      assert s[0..] == s;
      while i < |s|
        invariant 0 <= i <= |s| && AreBytes(s[i..]) && out + Escape(s[i..]) == Escape(s)
      {
        assert s[i..][1..] == s[i + 1..];
        assert out + (EscapeChar(s[i]) + Escape(s[i + 1..])) == out + EscapeChar(s[i]) + Escape(s[i + 1..]);
        out := out + EscapeChar(s[i]);
        i := i + 1;
      }
    }

    /** cg_string_lit: a new constant, whose declared size is that of its contents. */
    method StringLit(s: string) returns (id: nat)
      requires Valid() && AreBytes(s)
      modifies this
      ensures Valid() && id == old(nextId) && |globals| == |old(globals)| + 1 && old(globals) <= globals
      ensures Decode(globals[id].text) == Some(s + [0 as char]) && globals[id].size == |s| + 1
    {
      id := nextId;
      nextId := nextId + 1;
      var text := EmitEscaped(s);
      ConstantIsFaithful(s);
      globals := globals + [Global(id, |s| + 1, text + "\\00")];
    }
  }
}
