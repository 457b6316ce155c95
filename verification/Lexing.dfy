/** The lexer of stage0 (lexer.c). */
module Lexing {
  import opened Wrappers

  datatype Token = Eof | LParen | RParen | Atom(text: string) | Str(text: string)

  /** What the lexer finds in the remaining input: a token, the number of skipped
      characters before it and its own length. */
  datatype Lexeme = Lexeme(tok: Token, skip: nat, len: nat)

  /** `isspace` in the C locale. */
  predicate IsSpace(c: char) {
    c == ' ' || 9 <= c as int <= 13
  }

  predicate IsAtomChar(c: char) {
    !IsSpace(c) && c != '(' && c != ')' && c != '"' && c != ';'
  }

  /** The length of a comment, its newline included. */
  function CommentLen(s: string): (n: nat)
    ensures n <= |s| && (s != "" ==> n > 0)
  {
    if s == "" then 0 else if s[0] == '\n' then 1 else 1 + CommentLen(s[1..])
  }

  /** The length of the blanks and comments that `s` starts with. */
  function SkipLen(s: string): (n: nat)
    ensures n <= |s|
    decreases |s|
  {
    if s == "" then 0
    else if IsSpace(s[0]) then 1 + SkipLen(s[1..])
    else if s[0] == ';' then CommentLen(s) + SkipLen(s[CommentLen(s)..])
    else 0
  }

  function AtomLen(s: string): (n: nat)
    ensures n <= |s| && (s != "" && IsAtomChar(s[0]) ==> n > 0)
  {
    if s != "" && IsAtomChar(s[0]) then 1 + AtomLen(s[1..]) else 0
  }

  lemma {:induction false} AtomLenAt(src: string, i: nat)
    requires i <= |src|
    ensures AtomLen(src[i..]) == if i < |src| && IsAtomChar(src[i]) then 1 + AtomLen(src[i + 1..]) else 0
  {
    assert i < |src| ==> src[i..][1..] == src[i + 1..];
  }

  /** The character denoted by a backslash and `c`. */
  function Escaped(c: char): char {
    if c == 'n' then '\n' else if c == 't' then '\t' else if c == 'r' then '\r' else c
  }

  /** The characters that are blank, and those that a backslash makes into others. */
  lemma {:induction false} SpecialCharacters(c: char)
    ensures IsSpace(c) <==> c in {' ', '\t', '\n', '\r', 11 as char, 12 as char}
    ensures Escaped('n') == '\n' && Escaped('t') == '\t' && Escaped('r') == '\r'
    ensures c !in {'n', 't', 'r'} ==> Escaped(c) == c
  {
  }

  datatype Quoted = Quoted(text: string, len: nat)

  function Prepend(c: char, k: nat, q: Option<Quoted>): Option<Quoted> {
    match q
    case None => None
    case Some(r) => Some(Quoted([c] + r.text, k + r.len))
  }

  /** A string literal after its opening quote: its text and its length with the closing
      quote; none if it does not close. */
  function StringBody(s: string): (q: Option<Quoted>)
    ensures q.Some? ==> 0 < q.value.len <= |s|
  {
    if s == "" then None
    else if s[0] == '"' then Some(Quoted("", 1))
    else if s[0] == '\\' then
      if |s| < 2 then None else Prepend(Escaped(s[1]), 2, StringBody(s[2..]))
    else Prepend(s[0], 1, StringBody(s[1..]))
  }

  /** The token that `t` starts with; none at an unterminated string. */
  function TokenHere(t: string): (r: Option<Lexeme>)
    ensures r.Some? ==> r.value.skip == 0 && r.value.len <= |t| && (r.value.tok.Eof? <==> t == "")
  {
    if t == "" then Some(Lexeme(Eof, 0, 0))
    else if t[0] == '(' then Some(Lexeme(LParen, 0, 1))
    else if t[0] == ')' then Some(Lexeme(RParen, 0, 1))
    else if t[0] == '"' then
      match StringBody(t[1..])
      case None => None
      case Some(q) => Some(Lexeme(Str(q.text), 0, 1 + q.len))
    else Some(Lexeme(Atom(t[..AtomLen(t)]), 0, AtomLen(t)))
  }

  /** The next token of the remaining input `s`. */
  function Next(s: string): (r: Option<Lexeme>)
    ensures r.Some? ==> r.value.skip + r.value.len <= |s|
    ensures r.Some? ==> if r.value.tok.Eof? then r.value.skip == |s| && r.value.len == 0 else r.value.len > 0
  {
    SkipStops(s);
    var k := SkipLen(s);
    match TokenHere(s[k..])
    case None => None
    case Some(x) => Some(Lexeme(x.tok, k, x.len))
  }

  /** Skipping stops at the end or at the first character of a token. */
  lemma {:induction false} SkipStops(s: string)
    ensures var k := SkipLen(s); k < |s| ==> !IsSpace(s[k]) && s[k] != ';'
    decreases |s|
  {
    if s != "" {
      if IsSpace(s[0]) {
        SkipStops(s[1..]);
      } else if s[0] == ';' {
        SkipStops(s[CommentLen(s)..]);
      }
    }
  }

  // ---------- positions ----------

  function Line(src: string, i: nat): (l: nat)
    requires i <= |src|
  {
    if i == 0 then 1 else Line(src, i - 1) + (if src[i - 1] == '\n' then 1 else 0)
  }

  /** One plus the distance to the last newline before `i`, or to the start. */
  function Col(src: string, i: nat): (c: nat)
    requires i <= |src|
    ensures 1 <= c <= i + 1
    ensures forall k :: i + 1 - c <= k < i ==> src[k] != '\n'
    ensures c == i + 1 || src[i - c] == '\n'
  {
    if i == 0 || src[i - 1] == '\n' then 1 else Col(src, i - 1) + 1
  }

  /** A line number is one plus the number of newlines before. */
  lemma {:induction false} LineCountsNewlines(src: string, i: nat)
    requires i <= |src|
    ensures Line(src, i) == 1 + |set k | 0 <= k < i && src[k] == '\n'|
  {
    var ks := set k | 0 <= k < i && src[k] == '\n';
    if i > 0 {
      LineCountsNewlines(src, i - 1);
      var js := set k | 0 <= k < i - 1 && src[k] == '\n';
      assert ks == if src[i - 1] == '\n' then js + {i - 1} else js;
    }
  }

  /** A token with the position of its first character. */
  datatype PlacedToken = PlacedToken(tok: Token, line: nat, col: nat)

  datatype Lexed = Lexed(t: PlacedToken, next: nat)

  /** What lex_next returns at position `pos`, and the position behind it. */
  function Lex(src: string, pos: nat): (r: Option<Lexed>)
    requires pos <= |src|
    ensures r.Some? ==> pos <= r.value.next <= |src|
    ensures r.Some? ==> if r.value.t.tok.Eof? then r.value.next == |src| else pos < r.value.next
  {
    match Next(src[pos..])
    case None => None
    case Some(x) =>
      var at := pos + x.skip;
      Some(Lexed(PlacedToken(x.tok, Line(src, at), Col(src, at)), at + x.len))
  }

  class Lexer {
    const src: string
    var pos: nat
    var line: nat
    var col: nat

    ghost predicate Valid()
      reads this
    {
      pos <= |src| && line == Line(src, pos) && col == Col(src, pos)
    }

    /** lex_init */
    constructor (text: string)
      ensures Valid() && src == text && pos == 0
    {
      src, pos, line, col := text, 0, 1, 1;
    }

    /** lex_peek */
    method Peek() returns (c: Option<char>)
      requires Valid()
      ensures c == if pos < |src| then Some(src[pos]) else None
    {
      c := if pos >= |src| then None else Some(src[pos]);
    }

    /** lex_get */
    method Get() returns (c: Option<char>)
      requires Valid()
      modifies this
      ensures Valid()
      ensures if old(pos) < |src| then c == Some(src[old(pos)]) && pos == old(pos) + 1
              else c == None && pos == old(pos)
    {
      if pos >= |src| {
        return None;
      }
      c := Some(src[pos]);
      pos := pos + 1;
      if c.value == '\n' {
        line, col := line + 1, 1;
      } else {
        col := col + 1;
      }
    }

    /** The comment loop of lex_skip_ws_and_comments: consumes through the newline. */
    method SkipComment()
      requires Valid() && pos < |src| && src[pos] == ';'
      modifies this
      ensures Valid() && pos == old(pos) + CommentLen(src[old(pos)..])
    {
      hide Line, Col;
      var ch := Some(';');
      while ch.Some? && ch.value != '\n'
        invariant Valid() && old(pos) <= pos
        invariant if ch.Some? && ch.value != '\n' then
                    CommentLen(src[old(pos)..]) == pos - old(pos) + CommentLen(src[pos..])
                  else CommentLen(src[old(pos)..]) == pos - old(pos)
        decreases |src| - pos, if ch.Some? then 1 else 0
      {
        assert pos < |src| ==> src[pos..][1..] == src[pos + 1..];
        ch := Get();
      }
    }

    /** lex_skip_ws_and_comments */
    method Skip()
      requires Valid()
      modifies this
      ensures Valid() && pos == old(pos) + SkipLen(src[old(pos)..])
    {
      hide IsSpace, CommentLen, Line, Col;
      while true
        invariant Valid() && old(pos) <= pos
        invariant SkipLen(src[old(pos)..]) == pos - old(pos) + SkipLen(src[pos..])
        decreases |src| - pos
      {
        var c := Peek();
        if c.None? {
          return;
        }
        ghost var rest := src[pos..];
        if IsSpace(c.value) {
          assert rest[1..] == src[pos + 1..];
          c := Get();
        } else if c.value == ';' {
          assert rest[CommentLen(rest)..] == src[pos + CommentLen(rest)..];
          SkipComment();
        } else {
          return;
        }
      }
    }

    /** lex_read_while over atom characters */
    method ReadAtom() returns (text: string)
      requires Valid()
      modifies this
      ensures Valid() && pos == old(pos) + AtomLen(src[old(pos)..]) && text == src[old(pos)..pos]
    {
      hide IsAtomChar, AtomLen, Line, Col;
      text := "";
      while true
        invariant Valid() && old(pos) <= pos && text == src[old(pos)..pos]
        invariant AtomLen(src[old(pos)..]) == pos - old(pos) + AtomLen(src[pos..])
        decreases |src| - pos
      {
        var c := Peek();
        AtomLenAt(src, pos);
        if c.None? || !IsAtomChar(c.value) {
          return;
        }
        assert src[old(pos)..pos] + [src[pos]] == src[old(pos)..pos + 1];
        c := Get();
        text := text + [c.value];
      }
    }

    /** lex_read_string; fails on an unterminated literal. */
    method ReadString() returns (text: Option<string>)
      requires Valid() && pos < |src| && src[pos] == '"'
      modifies this
      ensures Valid()
      ensures match StringBody(src[old(pos) + 1..])
              case None => text == None
              case Some(q) => text == Some(q.text) && pos == old(pos) + 1 + q.len
    {
      hide Line, Col, Escaped, StringBody, Prepend;
      var c := Get();
      ghost var start := pos;
      var b := "";
      while true
        invariant Valid() && start <= pos
        invariant StringBody(src[start..]) == PrependAll(b, pos - start, StringBody(src[pos..]))
        decreases |src| - pos
      {
        ghost var at := pos;
        StringBodyEnds(src, pos);
        if pos < |src| && src[pos] != '"' {
          StringBodyAt(src, pos);
        }
        c := Get();
        if c.None? {
          return None;
        }
        if c.value == '"' {
          assert b + "" == b;
          return Some(b);
        }
        if c.value == '\\' {
          c := Get();
          if c.None? {
            return None;
          }
          PrependMore(b, at - start, Escaped(c.value), 2, StringBody(src[pos..]));
          b := b + [Escaped(c.value)];
        } else {
          PrependMore(b, at - start, c.value, 1, StringBody(src[pos..]));
          b := b + [c.value];
        }
      }
    }

    /** lex_next: the token, placed at its first character; fails on an unterminated
        string.  Every token but the last advances. */
    method LexNext() returns (t: Option<PlacedToken>)
      requires Valid()
      modifies this
      ensures Valid()
      ensures match Lex(src, old(pos))
              case None => t == None
              case Some(x) => t == Some(x.t) && pos == x.next
    {
      hide SkipLen, StringBody, IsSpace, Line, Col;
      ghost var rest := src[pos..];
      Skip();
      assert rest[SkipLen(rest)..] == src[pos..];
      var l, k := line, col;
      var tok := ReadToken();
      t := if tok.None? then None else Some(PlacedToken(tok.value, l, k));
    }

    /** The part of lex_next after the blanks. */
    method ReadToken() returns (t: Option<Token>)
      requires Valid()
      modifies this
      ensures Valid()
      ensures match TokenHere(src[old(pos)..])
              case None => t == None
              case Some(x) => t == Some(x.tok) && pos == old(pos) + x.len
    {
      hide Line, Col, StringBody;
      var c := Peek();
      if c.None? {
        return Some(Eof);
      }
      if c.value == '(' {
        c := Get();
        return Some(LParen);
      }
      if c.value == ')' {
        c := Get();
        return Some(RParen);
      }
      if c.value == '"' {
        assert src[pos..][1..] == src[pos + 1..];
        var s := ReadString();
        return if s.None? then None else Some(Str(s.value));
      }
      ghost var at := pos;
      var s := ReadAtom();
      assert src[at..][..AtomLen(src[at..])] == src[at..pos];
      return Some(Atom(s));
    }
  }

  /** `StringBody` one character, or one escape, at a time. */
  lemma {:induction false} StringBodyAt(src: string, i: nat)
    requires i < |src| && src[i] != '"'
    ensures StringBody(src[i..]) ==
            if src[i] != '\\' then Prepend(src[i], 1, StringBody(src[i + 1..]))
            else if i + 1 == |src| then None
            else Prepend(Escaped(src[i + 1]), 2, StringBody(src[i + 2..]))
  {
    assert src[i..][1..] == src[i + 1..];
    assert i + 1 < |src| ==> src[i..][2..] == src[i + 2..];
  }

  lemma {:induction false} StringBodyEnds(src: string, i: nat)
    requires i <= |src|
    ensures i == |src| ==> StringBody(src[i..]) == None
    ensures i < |src| && src[i] == '"' ==> StringBody(src[i..]) == Some(Quoted("", 1))
  {
  }

  function PrependAll(b: string, k: nat, q: Option<Quoted>): (r: Option<Quoted>)
    ensures b == "" && k == 0 ==> r == q
  {
    match q
    case None => None
    case Some(r) =>
      assert b == "" ==> b + r.text == r.text;
      Some(Quoted(b + r.text, k + r.len))
  }

  lemma {:induction false} PrependMore(b: string, k: nat, c: char, j: nat, q: Option<Quoted>)
    ensures PrependAll(b, k, Prepend(c, j, q)) == PrependAll(b + [c], k + j, q)
  {
    if q.Some? {
      assert b + ([c] + q.value.text) == b + [c] + q.value.text;
    }
  }
}
