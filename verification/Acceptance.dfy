/** Which sources the parser accepts: exactly those whose strings close and whose
    parentheses balance, told by a scan that knows nothing of tokens or trees. */
module Acceptance {
  import opened Wrappers
  import opened Lexing
  import opened Parsing

  datatype Mode = Code | Comment | Quote | Escape

  /** One character at a time: strings close, and every parenthesis outside strings and
      comments finds its partner, `depth` of them being open. */
  predicate Balanced(s: string, m: Mode, depth: nat) {
    if s == "" then (m.Code? || m.Comment?) && depth == 0
    else match m
         case Comment => Balanced(s[1..], if s[0] == '\n' then Code else Comment, depth)
         case Quote => Balanced(s[1..], if s[0] == '"' then Code else if s[0] == '\\' then Escape else Quote, depth)
         case Escape => Balanced(s[1..], Quote, depth)
         case Code =>
           if s[0] == '(' then Balanced(s[1..], Code, depth + 1)
           else if s[0] == ')' then depth > 0 && Balanced(s[1..], Code, depth - 1)
           else Balanced(s[1..], if s[0] == '"' then Quote else if s[0] == ';' then Comment else Code, depth)
  }

  lemma {:induction false} CommentBalanced(s: string, depth: nat)
    ensures Balanced(s, Comment, depth) == Balanced(s[CommentLen(s)..], Code, depth)
    decreases |s|
  {
    if s != "" && s[0] != '\n' {
      CommentBalanced(s[1..], depth);
      assert s[1..][CommentLen(s[1..])..] == s[CommentLen(s)..];
    }
  }

  lemma {:induction false} WholeCommentBalanced(s: string, depth: nat)
    requires s != "" && s[0] == ';'
    ensures Balanced(s, Code, depth) == Balanced(s[CommentLen(s)..], Code, depth)
  {
    CommentBalanced(s[1..], depth);
    assert s[1..][CommentLen(s) - 1..] == s[CommentLen(s)..];
  }

  lemma {:induction false} BlankBalanced(s: string, depth: nat)
    requires s != "" && IsSpace(s[0])
    ensures Balanced(s, Code, depth) == Balanced(s[1..], Code, depth)
  {
  }

  lemma {:induction false} SkipBalanced(s: string, depth: nat)
    ensures Balanced(s, Code, depth) == Balanced(s[SkipLen(s)..], Code, depth)
    decreases |s|
  {
    hide Balanced, IsSpace, CommentLen;
    if s != "" && (IsSpace(s[0]) || s[0] == ';') {
      var c := if IsSpace(s[0]) then 1 else CommentLen(s);
      SkipBalanced(s[c..], depth);
      assert s[c..][SkipLen(s[c..])..] == s[SkipLen(s)..];
      if IsSpace(s[0]) {
        BlankBalanced(s, depth);
      } else {
        WholeCommentBalanced(s, depth);
      }
    } else {
      assert s[0..] == s;
    }
  }

  lemma {:induction false} AtomBalanced(s: string, depth: nat)
    ensures Balanced(s, Code, depth) == Balanced(s[AtomLen(s)..], Code, depth)
    decreases |s|
  {
    if s != "" && IsAtomChar(s[0]) {
      AtomBalanced(s[1..], depth);
      assert s[1..][AtomLen(s[1..])..] == s[AtomLen(s)..];
    }
  }

  lemma {:induction false} StringBalanced(s: string, depth: nat)
    ensures match StringBody(s)
            case None => !Balanced(s, Quote, depth)
            case Some(q) => Balanced(s, Quote, depth) == Balanced(s[q.len..], Code, depth)
    decreases |s|
  {
    if s == "" || s[0] == '"' {
    } else {
      var k := if s[0] == '\\' then 2 else 1;
      if k <= |s| {
        StringBalanced(s[k..], depth);
        var q := StringBody(s[k..]);
        if q.Some? {
          assert s[k..][q.value.len..] == s[k + q.value.len..];
        }
        assert k == 2 ==> s[1..][1..] == s[2..];
      }
    }
  }

  /** What a token does to the scan, `rest` being the input behind it. */
  predicate After(tok: Token, rest: string, depth: nat) {
    match tok
    case Eof => depth == 0
    case LParen => Balanced(rest, Code, depth + 1)
    case RParen => depth > 0 && Balanced(rest, Code, depth - 1)
    case _ => Balanced(rest, Code, depth)
  }

  lemma {:induction false} HereBalanced(t: string, depth: nat)
    requires t != "" ==> !IsSpace(t[0]) && t[0] != ';'
    ensures match TokenHere(t)
            case None => !Balanced(t, Code, depth)
            case Some(x) => Balanced(t, Code, depth) == After(x.tok, t[x.len..], depth)
  {
    hide StringBody, AtomLen;
    if t != "" && t[0] == '"' {
      var u := t[1..];
      StringBalanced(u, depth);
      if StringBody(u).Some? {
        assert u[StringBody(u).value.len..] == t[1 + StringBody(u).value.len..];
      }
    } else if t != "" && t[0] != '(' && t[0] != ')' {
      AtomBalanced(t, depth);
    }
  }

  lemma {:induction false} TokenBalanced(src: string, i: nat, depth: nat)
    requires i <= |src|
    ensures match Lex(src, i)
            case None => !Balanced(src[i..], Code, depth)
            case Some(x) => Balanced(src[i..], Code, depth) == After(x.t.tok, src[x.next..], depth)
  {
    hide Line, Col, SkipLen, TokenHere, Balanced, After, IsSpace;
    var s := src[i..];
    var k := SkipLen(s);
    SkipStops(s);
    SkipBalanced(s, depth);
    HereBalanced(s[k..], depth);
    var x := TokenHere(s[k..]);
    if x.Some? {
      assert s[k..][x.value.len..] == src[i + k + x.value.len..];
    }
  }

  lemma {:induction false} ItemsBalanced(src: string, i: nat, depth: nat)
    requires i <= |src|
    ensures match Items(src, i)
            case None => !Balanced(src[i..], Code, depth + 1)
            case Some(p) => Balanced(src[i..], Code, depth + 1) == Balanced(src[p.next..], Code, depth)
    decreases |src| - i
  {
    hide Lex, Balanced;
    TokenBalanced(src, i, depth + 1);
    var x := Lex(src, i);
    if x.Some? && !x.value.t.tok.Eof? && !x.value.t.tok.RParen? {
      if x.value.t.tok.LParen? {
        ItemsBalanced(src, x.value.next, depth + 1);
        var sub := Items(src, x.value.next);
        if sub.Some? {
          ItemsBalanced(src, sub.value.next, depth);
        }
      } else {
        ItemsBalanced(src, x.value.next, depth);
      }
    }
  }

  lemma {:induction false} TopBalanced(src: string, i: nat)
    requires i <= |src|
    ensures Top(src, i).Some? <==> Balanced(src[i..], Code, 0)
    decreases |src| - i
  {
    hide Lex, Balanced;
    TokenBalanced(src, i, 0);
    var one := Form(src, i);
    if one.Some? && one.value.form.Some? {
      TopBalanced(src, one.value.next);
    }
    var x := Lex(src, i);
    if x.Some? && x.value.t.tok.LParen? {
      ItemsBalanced(src, x.value.next, 0);
    }
  }

  /** The parser accepts exactly the sources whose strings close and whose parentheses
      balance. */
  lemma {:induction false} AcceptsExactly(src: string)
    ensures Parse(src).Some? <==> Balanced(src, Code, 0)
  {
    TopBalanced(src, 0);
    assert src[0..] == src;
  }
}
