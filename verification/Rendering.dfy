/** Reading inverts writing: a source parses to a forest exactly when it is some rendering
    of that forest, whatever blanks, comments and escapes the rendering uses. */
module Rendering {
  import opened Wrappers
  import opened Lexing
  import opened Parsing
  import S = Sexprs

  // ---------- what a rendering is ----------

  /** A token as written, with the gap before it. */
  datatype Piece = Piece(gap: string, spelling: string)

  /** Blanks and comments, each comment closed by a newline. */
  predicate IsGap(s: string)
    decreases |s|
  {
    s == "" ||
    (if s[0] == ';' then s[CommentLen(s) - 1] == '\n' && IsGap(s[CommentLen(s)..])
     else IsSpace(s[0]) && IsGap(s[1..]))
  }

  /** A gap whose last comment may run to the end of the input. */
  predicate IsFinalGap(s: string)
    decreases |s|
  {
    s == "" ||
    (if s[0] == ';' then IsFinalGap(s[CommentLen(s)..]) else IsSpace(s[0]) && IsFinalGap(s[1..]))
  }

  predicate IsAtomText(s: string) {
    s != "" && forall k :: 0 <= k < |s| ==> IsAtomChar(s[k])
  }

  /** The inside of a string literal denotes a text; any character may be escaped, a quote
      or a backslash must be. */
  predicate Denotes(body: string, text: string) {
    if body == "" then text == ""
    else if body[0] == '\\' then
      |body| >= 2 && text != "" && text[0] == Escaped(body[1]) && Denotes(body[2..], text[1..])
    else body[0] != '"' && text != "" && text[0] == body[0] && Denotes(body[1..], text[1..])
  }

  predicate Spells(sp: string, tok: Token) {
    match tok
    case Eof => false
    case LParen => sp == "("
    case RParen => sp == ")"
    case Atom(t) => sp == t && IsAtomText(t)
    case Str(t) => |sp| >= 2 && sp[0] == '"' && sp[|sp| - 1] == '"' && Denotes(sp[1..|sp| - 1], t)
  }

  /** Pieces write down tokens; only two atoms in a row need a gap between them. */
  predicate Laid(ps: seq<Piece>, toks: seq<Token>) {
    if toks == [] then ps == []
    else
      ps != [] && IsGap(ps[0].gap) && Spells(ps[0].spelling, toks[0]) && Laid(ps[1..], toks[1..]) &&
      (|toks| > 1 && toks[0].Atom? && toks[1].Atom? ==> ps[1].gap != "")
  }

  function Text(ps: seq<Piece>, tail: string): string {
    if ps == [] then tail else ps[0].gap + ps[0].spelling + Text(ps[1..], tail)
  }

  function Flatten(f: seq<S.Sexpr>): seq<Token> {
    if f == [] then [] else FlattenOne(f[0]) + Flatten(f[1..])
  }

  function FlattenOne(e: S.Sexpr): seq<Token> {
    match e
    case Atom(t) => [Token.Atom(t)]
    case Str(t) => [Token.Str(t)]
    case List(items) => [LParen] + Flatten(items) + [RParen]
  }

  /** `src` writes down the forest `f`. */
  ghost predicate Renders(src: string, f: seq<S.Sexpr>) {
    exists ps, tail :: Laid(ps, Flatten(f)) && IsFinalGap(tail) && src == Text(ps, tail)
  }

  function Strip(ns: seq<Node>): seq<S.Sexpr> {
    if ns == [] then [] else [StripOne(ns[0])] + Strip(ns[1..])
  }

  function StripOne(n: Node): S.Sexpr {
    match n
    case AtomNode(t, _, _) => S.Atom(t)
    case StrNode(t, _, _) => S.Str(t)
    case ListNode(items, _, _) => S.List(Strip(items))
  }

  /** All tokens of an input; none if a string does not close. */
  function Tokens(s: string): Option<seq<Token>>
    decreases |s|
  {
    match Next(s)
    case None => None
    case Some(x) =>
      if x.tok.Eof? then Some([])
      else match Tokens(s[x.skip + x.len..])
           case None => None
           case Some(ts) => Some([x.tok] + ts)
  }

  // ---------- a rendering is read as its tokens ----------

  lemma {:induction false} CommentIsPrefix(s: string, t: string)
    requires s != "" && s[CommentLen(s) - 1] == '\n'
    ensures CommentLen(s + t) == CommentLen(s)
  {
    assert (s + t)[1..] == s[1..] + t;
    if s[0] != '\n' {
      CommentIsPrefix(s[1..], t);
    }
  }

  lemma {:induction false} GapIsSkipped(gap: string, t: string)
    requires IsGap(gap)
    ensures SkipLen(gap + t) == |gap| + SkipLen(t)
    decreases |gap|
  {
    if gap == "" {
      assert gap + t == t;
    } else if gap[0] == ';' {
      var c := CommentLen(gap);
      CommentIsPrefix(gap, t);
      assert (gap + t)[c..] == gap[c..] + t;
      GapIsSkipped(gap[c..], t);
    } else {
      assert (gap + t)[1..] == gap[1..] + t;
      GapIsSkipped(gap[1..], t);
    }
  }

  lemma {:induction false} FinalGapIsSkipped(tail: string)
    ensures IsFinalGap(tail) <==> SkipLen(tail) == |tail|
    decreases |tail|
  {
    if tail != "" {
      if tail[0] == ';' {
        FinalGapIsSkipped(tail[CommentLen(tail)..]);
      } else {
        FinalGapIsSkipped(tail[1..]);
      }
    }
  }

  lemma {:induction false} AtomIsRead(t: string, rest: string)
    requires forall k :: 0 <= k < |t| ==> IsAtomChar(t[k])
    requires rest == "" || !IsAtomChar(rest[0])
    ensures AtomLen(t + rest) == |t|
  {
    if t == "" {
      assert t + rest == rest;
    } else {
      assert (t + rest)[1..] == t[1..] + rest;
      AtomIsRead(t[1..], rest);
    }
  }

  lemma {:induction false} BodyIsRead(body: string, text: string, rest: string)
    requires Denotes(body, text)
    ensures StringBody(body + "\"" + rest) == Some(Quoted(text, |body| + 1))
    decreases |body|
  {
    var s := body + "\"" + rest;
    if body != "" {
      var k := if body[0] == '\\' then 2 else 1;
      assert s[k..] == body[k..] + "\"" + rest;
      BodyIsRead(body[k..], text[1..], rest);
      assert text == [text[0]] + text[1..];
    }
  }

  /** One written token is read back whole. */
  lemma {:induction false} SpellingIsRead(sp: string, tok: Token, rest: string)
    requires Spells(sp, tok)
    requires tok.Atom? && rest != "" ==> !IsAtomChar(rest[0])
    ensures sp != "" && !IsSpace(sp[0]) && sp[0] != ';'
    ensures TokenHere(sp + rest) == Some(Lexeme(tok, 0, |sp|))
  {
    hide StringBody, Denotes;
    var s := sp + rest;
    match tok
    case Atom(t) =>
      AtomIsRead(t, rest);
      assert s[..|t|] == t;
    case Str(t) =>
      var body := sp[1..|sp| - 1];
      assert s[1..] == body + "\"" + rest;
      BodyIsRead(body, t, rest);
    case _ =>
  }

  lemma {:induction false} PieceIsRead(p: Piece, tok: Token, rest: string)
    requires IsGap(p.gap) && Spells(p.spelling, tok)
    requires tok.Atom? && rest != "" ==> !IsAtomChar(rest[0])
    ensures Next(p.gap + p.spelling + rest) == Some(Lexeme(tok, |p.gap|, |p.spelling|))
  {
    hide TokenHere, Spells, IsGap;
    var t := p.spelling + rest;
    SpellingIsRead(p.spelling, tok, rest);
    assert p.gap + p.spelling + rest == p.gap + t;
    GapIsSkipped(p.gap, t);
    assert (p.gap + t)[|p.gap|..] == t;
  }

  lemma {:induction false} TextStart(ps: seq<Piece>, toks: seq<Token>, tail: string)
    requires Laid(ps, toks) && IsFinalGap(tail)
    requires toks != [] && toks[0].Atom? ==> ps[0].gap != ""
    ensures Text(ps, tail) != "" ==> !IsAtomChar(Text(ps, tail)[0])
  {
  }

  lemma {:induction false} TextIsRead(ps: seq<Piece>, toks: seq<Token>, tail: string)
    requires Laid(ps, toks) && IsFinalGap(tail)
    ensures Tokens(Text(ps, tail)) == Some(toks)
    decreases |ps|
  {
    hide Next, IsGap, Spells, IsFinalGap;
    if toks == [] {
      NothingIsRead(tail);
    } else {
      var rest := Text(ps[1..], tail);
      if toks[0].Atom? {
        TextStart(ps[1..], toks[1..], tail);
      }
      PieceIsRead(ps[0], toks[0], rest);
      var s := Text(ps, tail);
      assert s[|ps[0].gap| + |ps[0].spelling|..] == rest;
      TextIsRead(ps[1..], toks[1..], tail);
      assert toks == [toks[0]] + toks[1..];
      NotEof(ps[0].spelling, toks[0]);
    }
  }

  lemma {:induction false} NotEof(sp: string, tok: Token)
    requires Spells(sp, tok)
    ensures !tok.Eof?
  {
  }

  lemma {:induction false} NothingIsRead(tail: string)
    ensures IsFinalGap(tail) <==> Next(tail).Some? && Next(tail).value.tok.Eof?
  {
    FinalGapIsSkipped(tail);
    assert SkipLen(tail) == |tail| ==> tail[SkipLen(tail)..] == "";
  }

  // ---------- what is read as tokens is a rendering ----------

  lemma {:induction false} SkippedIsGap(s: string) returns (k: nat)
    ensures k == SkipLen(s) && k <= |s|
    ensures k < |s| ==> IsGap(s[..k])
    decreases |s|
  {
    k := SkipLen(s);
    if k < |s| && k > 0 {
      var c := if s[0] == ';' then CommentLen(s) else 1;
      var j := SkippedIsGap(s[c..]);
      assert s[..k][c..] == s[c..][..j];
      if s[0] == ';' {
        CommentCloses(s);
        assert s == s[..k] + s[k..];
        CommentWithin(s[..k], s[k..]);
      }
    }
  }

  /** A comment that is not the end of the input has a newline. */
  lemma {:induction false} CommentCloses(s: string)
    requires CommentLen(s) < |s|
    ensures s[CommentLen(s) - 1] == '\n'
  {
    if s[0] != '\n' {
      CommentCloses(s[1..]);
    }
  }

  lemma {:induction false} CommentWithin(a: string, b: string)
    requires a != "" && CommentLen(a + b) <= |a|
    ensures CommentLen(a) == CommentLen(a + b)
  {
    assert (a + b)[1..] == a[1..] + b;
    if a[0] != '\n' {
      if a[1..] == "" {
        assert a[1..] + b == b;
      } else {
        CommentWithin(a[1..], b);
      }
    }
  }

  lemma {:induction false} ReadBodyDenotes(s: string)
    requires StringBody(s).Some?
    ensures var q := StringBody(s).value; s[q.len - 1] == '"' && Denotes(s[..q.len - 1], q.text)
    decreases |s|
  {
    if s[0] != '"' {
      var k := if s[0] == '\\' then 2 else 1;
      ReadBodyDenotes(s[k..]);
      var q := StringBody(s).value;
      var r := StringBody(s[k..]).value;
      assert s[..q.len - 1][k..] == s[k..][..r.len - 1];
      assert q.text[1..] == r.text;
    }
  }

  lemma {:induction false} ReadAtomIsText(s: string)
    ensures forall k :: 0 <= k < AtomLen(s) ==> IsAtomChar(s[k])
    ensures AtomLen(s) < |s| ==> !IsAtomChar(s[AtomLen(s)])
  {
    if s != "" && IsAtomChar(s[0]) {
      ReadAtomIsText(s[1..]);
      forall k | 0 <= k < AtomLen(s) ensures IsAtomChar(s[k]) {
        if k > 0 {
          assert s[k] == s[1..][k - 1];
        }
      }
    }
  }

  lemma {:induction false} ReadTokenIsSpelled(t: string)
    requires t != "" && !IsSpace(t[0]) && t[0] != ';' && TokenHere(t).Some?
    ensures var x := TokenHere(t).value;
            Spells(t[..x.len], x.tok) && (x.tok.Atom? && x.len < |t| ==> !IsAtomChar(t[x.len]))
  {
    hide StringBody, Denotes, AtomLen;
    var x := TokenHere(t).value;
    if t[0] == '"' {
      var u := t[1..];
      ReadBodyDenotes(u);
      var q := StringBody(u).value;
      var body := u[..q.len - 1];
      assert t[..x.len][1..x.len - 1] == body;
    } else if t[0] != '(' && t[0] != ')' {
      ReadAtomIsText(t);
    }
  }

  /** The first token read, as a piece. */
  lemma {:induction false} ReadPiece(s: string) returns (p: Piece)
    requires Next(s).Some? && !Next(s).value.tok.Eof?
    ensures var x := Next(s).value;
            IsGap(p.gap) && Spells(p.spelling, x.tok) && |p.gap| == x.skip && |p.spelling| == x.len &&
            s == p.gap + p.spelling + s[x.skip + x.len..] &&
            (x.tok.Atom? && x.skip + x.len < |s| ==> !IsAtomChar(s[x.skip + x.len]))
  {
    hide TokenHere, IsSpace, Spells, IsGap;
    var k := SkippedIsGap(s);
    SkipStops(s);
    var t := s[k..];
    ReadTokenIsSpelled(t);
    p := Piece(s[..k], t[..Next(s).value.len]);
  }

  /** Whatever is read as tokens writes them down. */
  lemma {:induction false} ReadIsRendering(s: string) returns (ps: seq<Piece>, tail: string)
    requires Tokens(s).Some?
    ensures Laid(ps, Tokens(s).value) && IsFinalGap(tail) && s == Text(ps, tail)
    decreases |s|
  {
    hide Next, IsAtomChar, IsFinalGap, Spells, IsGap;
    NothingIsRead(s);
    var x := Next(s).value;
    if x.tok.Eof? {
      ps, tail := [], s;
    } else {
      var p := ReadPiece(s);
      var rest := s[x.skip + x.len..];
      var ps';
      ps', tail := ReadIsRendering(rest);
      ps := [p] + ps';
      assert ps[1..] == ps';
      var toks := Tokens(s).value;
      assert toks[1..] == Tokens(rest).value;
      if |toks| > 1 && toks[0].Atom? && toks[1].Atom? {
        AtomsApart(ps', toks[1..], tail);
      }
    }
  }

  lemma {:induction false} AtomsApart(ps: seq<Piece>, toks: seq<Token>, tail: string)
    requires Laid(ps, toks) && toks != [] && toks[0].Atom?
    ensures Text(ps, tail) != "" && (ps[0].gap == "" ==> IsAtomChar(Text(ps, tail)[0]))
  {
  }

  // ---------- parsing and tokens ----------

  lemma {:induction false} LexIsToken(src: string, i: nat)
    requires i <= |src|
    ensures match Lex(src, i)
            case None => Tokens(src[i..]) == None
            case Some(x) =>
              if x.t.tok.Eof? then Tokens(src[i..]) == Some([])
              else match Tokens(src[x.next..])
                   case None => Tokens(src[i..]) == None
                   case Some(ts) => Tokens(src[i..]) == Some([x.t.tok] + ts)
  {
    hide Next, Line, Col;
    var s := src[i..];
    if Next(s).Some? {
      var x := Next(s).value;
      assert s[x.skip + x.len..] == src[i + x.skip + x.len..];
    }
  }

  /** What is parsed are the tokens read. */
  lemma {:induction false} ItemsAreTokens(src: string, i: nat)
    requires i <= |src| && Items(src, i).Some?
    ensures var p := Items(src, i).value;
            match Tokens(src[p.next..])
            case None => Tokens(src[i..]) == None
            case Some(ts) => Tokens(src[i..]) == Some(Flatten(Strip(p.items)) + [RParen] + ts)
    decreases |src| - i
  {
    hide Lex, Tokens, Flatten, Strip;
    LexIsToken(src, i);
    StripNone();
    var x := Lex(src, i).value;
    var p := Items(src, i).value;
    if x.t.tok.RParen? {
      assert Flatten(Strip(p.items)) + [RParen] == [RParen];
    } else {
      var j := x.next;
      if x.t.tok.LParen? {
        ItemsAreTokens(src, x.next);
        j := Items(src, x.next).value.next;
      }
      ItemsAreTokens(src, j);
      assert p.items[1..] == Items(src, j).value.items;
      StripCons(p.items);
      var ts := Tokens(src[p.next..]);
      if ts.Some? {
        var own := FlattenOne(StripOne(p.items[0]));
        var rest := Flatten(Strip(p.items[1..]));
        if x.t.tok.LParen? {
          var sub := Flatten(Strip(Items(src, x.next).value.items));
          assert own + rest + [RParen] + ts.value == [LParen] + (sub + [RParen] + (rest + [RParen] + ts.value));
        } else {
          assert own + rest + [RParen] + ts.value == [x.t.tok] + (rest + [RParen] + ts.value);
        }
      }
    }
  }

  lemma {:induction false} StripNone()
    ensures Flatten(Strip([])) == []
  {
  }

  lemma {:induction false} StripCons(ns: seq<Node>)
    requires ns != []
    ensures Flatten(Strip(ns)) == FlattenOne(StripOne(ns[0])) + Flatten(Strip(ns[1..]))
  {
    assert Strip(ns)[1..] == Strip(ns[1..]);
  }

  lemma {:induction false} TopIsTokens(src: string, i: nat)
    requires i <= |src| && Top(src, i).Some?
    ensures Tokens(src[i..]) == Some(Flatten(Strip(Top(src, i).value)))
    decreases |src| - i
  {
    hide Lex, Tokens, Flatten, Strip;
    LexIsToken(src, i);
    StripNone();
    var one := Form(src, i).value;
    if one.form.Some? {
      var x := Lex(src, i).value;
      if x.t.tok.LParen? {
        ItemsAreTokens(src, x.next);
      }
      TopIsTokens(src, one.next);
      var ns := Top(src, i).value;
      assert ns[1..] == Top(src, one.next).value;
      StripCons(ns);
      if x.t.tok.LParen? {
        var sub := Flatten(Strip(Items(src, x.next).value.items));
        var rest := Flatten(Strip(ns[1..]));
        assert [LParen] + sub + [RParen] + rest == [LParen] + (sub + [RParen] + rest);
      }
    }
  }

  lemma {:induction false} LexHead(src: string, i: nat, tok: Token, rest: seq<Token>)
    requires i <= |src| && Tokens(src[i..]) == Some([tok] + rest)
    ensures Lex(src, i).Some?
    ensures var x := Lex(src, i).value; x.t.tok == tok && i < x.next && Tokens(src[x.next..]) == Some(rest)
  {
    hide Lex, Tokens;
    LexIsToken(src, i);
    var x := Lex(src, i).value;
    var ts := Tokens(src[x.next..]);
    assert ([tok] + rest)[1..] == rest;
    assert ts.Some? ==> ([x.t.tok] + ts.value)[1..] == ts.value;
  }

  lemma {:induction false} ListCat(sub: seq<Token>, rest: seq<Token>, more: seq<Token>)
    ensures [LParen] + sub + [RParen] + rest + [RParen] + more == [LParen] + (sub + [RParen] + (rest + [RParen] + more))
  {
  }

  lemma {:induction false} LeafCat(tok: Token, rest: seq<Token>, more: seq<Token>)
    ensures [tok] + rest + [RParen] + more == [tok] + (rest + [RParen] + more)
  {
  }

  /** Tokens of a forest are parsed to that forest: in a list, up to its parenthesis. */
  lemma {:induction false} ItemsOfTokens(src: string, i: nat, items: seq<S.Sexpr>, more: seq<Token>)
    requires i <= |src| && Tokens(src[i..]) == Some(Flatten(items) + [RParen] + more)
    ensures Items(src, i).Some?
    ensures var p := Items(src, i).value; Strip(p.items) == items && Tokens(src[p.next..]) == Some(more)
    decreases items, |src| - i
  {
    hide Lex, Tokens;
    if items == [] {
      assert Flatten(items) + [RParen] + more == [RParen] + more;
      LexHead(src, i, RParen, more);
    } else {
      var rest := Flatten(items[1..]) + [RParen] + more;
      if items[0].List? {
        var sub := items[0].items;
        ListCat(Flatten(sub), Flatten(items[1..]), more);
        LexHead(src, i, LParen, Flatten(sub) + [RParen] + rest);
        ItemsOfTokens(src, Lex(src, i).value.next, sub, rest);
        ItemsOfTokens(src, Items(src, Lex(src, i).value.next).value.next, items[1..], more);
      } else {
        var tok := FlattenOne(items[0])[0];
        LeafCat(tok, Flatten(items[1..]), more);
        LexHead(src, i, tok, rest);
        ItemsOfTokens(src, Lex(src, i).value.next, items[1..], more);
      }
      var ns := Items(src, i).value.items;
      StripHead(ns);
      assert items == [items[0]] + items[1..];
    }
  }

  lemma {:induction false} StripHead(ns: seq<Node>)
    requires ns != []
    ensures Strip(ns) == [StripOne(ns[0])] + Strip(ns[1..])
  {
  }

  lemma {:induction false} TopOfTokens(src: string, i: nat, f: seq<S.Sexpr>)
    requires i <= |src| && Tokens(src[i..]) == Some(Flatten(f))
    ensures Top(src, i).Some? && Strip(Top(src, i).value) == f
    decreases f
  {
    hide Lex, Tokens;
    if f == [] {
      LexIsToken(src, i);
    } else {
      var rest := Flatten(f[1..]);
      if f[0].List? {
        var sub := f[0].items;
        assert Flatten(f) == [LParen] + (Flatten(sub) + [RParen] + rest);
        LexHead(src, i, LParen, Flatten(sub) + [RParen] + rest);
        ItemsOfTokens(src, Lex(src, i).value.next, sub, rest);
      } else {
        LexHead(src, i, FlattenOne(f[0])[0], rest);
      }
      TopOfTokens(src, Form(src, i).value.next, f[1..]);
      StripHead(Top(src, i).value);
      assert f == [f[0]] + f[1..];
    }
  }

  /** Parsing inverts rendering, in both directions: a source parses to the forest `f` if
      and only if it writes `f` down. */
  lemma {:induction false} ParseInvertsRendering(src: string, f: seq<S.Sexpr>)
    ensures Parse(src).Some? && Strip(Parse(src).value) == f <==> Renders(src, f)
  {
    assert src[0..] == src;
    if Renders(src, f) {
      var ps, tail :| Laid(ps, Flatten(f)) && IsFinalGap(tail) && src == Text(ps, tail);
      TextIsRead(ps, Flatten(f), tail);
      TopOfTokens(src, 0, f);
    }
    if Parse(src).Some? && Strip(Parse(src).value) == f {
      TopIsTokens(src, 0);
      var ps, tail := ReadIsRendering(src);
    }
  }

  // ---------- every forest has a rendering ----------

  function EscapeText(text: string): string {
    if text == "" then ""
    else (if text[0] == '"' || text[0] == '\\' then ['\\', text[0]] else [text[0]]) + EscapeText(text[1..])
  }

  lemma {:induction false} EscapeDenotes(text: string)
    ensures Denotes(EscapeText(text), text)
  {
    if text != "" {
      var rest := EscapeText(text[1..]);
      EscapeDenotes(text[1..]);
      if text[0] == '"' || text[0] == '\\' {
        assert EscapeText(text)[2..] == rest;
      } else {
        assert EscapeText(text)[1..] == rest;
      }
    }
  }

  /** Forests whose atoms the lexer can read. */
  predicate Writable(f: seq<S.Sexpr>) {
    f == [] || (WritableOne(f[0]) && Writable(f[1..]))
  }

  predicate WritableOne(e: S.Sexpr) {
    match e
    case Atom(t) => IsAtomText(t)
    case Str(t) => true
    case List(items) => Writable(items)
  }

  function SpellingOf(tok: Token): string {
    match tok
    case Eof => ""
    case LParen => "("
    case RParen => ")"
    case Atom(t) => t
    case Str(t) => "\"" + EscapeText(t) + "\""
  }

  /** One blank before each token. */
  function PiecesOf(toks: seq<Token>): seq<Piece> {
    if toks == [] then [] else [Piece(" ", SpellingOf(toks[0]))] + PiecesOf(toks[1..])
  }

  predicate Spellable(toks: seq<Token>) {
    forall k :: 0 <= k < |toks| ==> !toks[k].Eof? && (toks[k].Atom? ==> IsAtomText(toks[k].text))
  }

  lemma {:induction false} FlattenSpellable(f: seq<S.Sexpr>)
    requires Writable(f)
    ensures Spellable(Flatten(f))
    decreases f
  {
    if f != [] {
      if f[0].List? {
        FlattenSpellable(f[0].items);
      }
      FlattenSpellable(f[1..]);
    }
  }

  lemma {:induction false} PiecesLaid(toks: seq<Token>)
    requires Spellable(toks)
    ensures Laid(PiecesOf(toks), toks)
  {
    if toks != [] {
      assert toks[1..] != [] ==> toks[1] == toks[1..][0];
      assert Spellable(toks[1..]);
      PiecesLaid(toks[1..]);
      if toks[0].Str? {
        EscapeDenotes(toks[0].text);
        var sp := SpellingOf(toks[0]);
        assert sp[1..|sp| - 1] == EscapeText(toks[0].text);
      }
      assert " "[1..] == "";
      var ps := PiecesOf(toks);
      assert ps[1..] == PiecesOf(toks[1..]);
    }
  }

  /** Writing a forest and reading it back gives the forest. */
  lemma {:induction false} RoundTrip(f: seq<S.Sexpr>)
    requires Writable(f)
    ensures var r := Parse(Text(PiecesOf(Flatten(f)), ""));
            r.Some? && Strip(r.value) == f
  {
    FlattenSpellable(f);
    PiecesLaid(Flatten(f));
    var src := Text(PiecesOf(Flatten(f)), "");
    assert Renders(src, f);
    ParseInvertsRendering(src, f);
  }
}
