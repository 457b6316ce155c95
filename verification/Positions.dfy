/** Where tokens and forms stand: each is placed at the first character of its own text. */
module Positions {
  import opened Wrappers
  import opened Lexing
  import opened Parsing
  import opened Rendering

  /** The text of a token stands at `at` up to `next`, behind a gap from `pos` on, and the token
      bears the line and column of its first character. */
  predicate Stands(src: string, pos: nat, at: nat, next: nat, t: PlacedToken) {
    pos <= at < next <= |src| && IsGap(src[pos..at]) && Spells(src[at..next], t.tok) &&
    t.line == Line(src, at) && t.col == Col(src, at)
  }

  /** Every token but the end is placed at the first character of its text, which follows the
      last token after blanks and comments only. */
  lemma {:induction false} TokensStand(src: string, pos: nat) returns (at: nat)
    requires pos <= |src| && Lex(src, pos).Some? && !Lex(src, pos).value.t.tok.Eof?
    ensures Stands(src, pos, at, Lex(src, pos).value.next, Lex(src, pos).value.t)
  {
    hide IsGap, Spells, Next, Line, Col;
    var s := src[pos..];
    var x := Next(s).value;
    NextFits(s);
    var p := ReadPiece(s);
    at := pos + x.skip;
    assert s[..x.skip] == p.gap && s[..x.skip] == src[pos..at];
    assert s[x.skip..x.skip + x.len] == p.spelling && s[x.skip..x.skip + x.len] == src[at..at + x.len];
  }

  lemma {:induction false} NextFits(s: string)
    requires Next(s).Some? && !Next(s).value.tok.Eof?
    ensures var x := Next(s).value; x.len > 0 && x.skip + x.len <= |s|
  {
  }

  /** The end is placed behind the last character. */
  lemma {:induction false} EndStands(src: string, pos: nat)
    requires pos <= |src| && Lex(src, pos).Some? && Lex(src, pos).value.t.tok.Eof?
    ensures IsFinalGap(src[pos..])
    ensures var t := Lex(src, pos).value.t; t.line == Line(src, |src|) && t.col == Col(src, |src|)
  {
    hide IsFinalGap, Line, Col;
    NothingIsRead(src[pos..]);
  }

  // ---------- forms ----------

  /** The text of a form stands at `i` up to `j`, the form bears the line and column of its
      first character, and so do the forms in it. */
  ghost predicate FormStands(src: string, n: Node, i: nat, j: nat)
    decreases n, 0
  {
    i < j <= |src| && n.line == Line(src, i) && n.col == Col(src, i) &&
    match n
    case AtomNode(t, _, _) => Spells(src[i..j], Atom(t))
    case StrNode(t, _, _) => Spells(src[i..j], Str(t))
    case ListNode(items, _, _) =>
      src[i] == '(' && i + 1 < j && src[j - 1] == ')' && FormsStand(src, items, i + 1, j - 1)
  }

  /** The forms follow each other from `i` to `j`, with nothing but blanks and comments before,
      between and behind them. */
  ghost predicate FormsStand(src: string, ns: seq<Node>, i: nat, j: nat)
    decreases ns, 1
  {
    i <= j <= |src| &&
    if ns == [] then IsGap(src[i..j])
    else
      exists a: nat, b: nat ::
        i <= a < b <= j && IsGap(src[i..a]) && FormStands(src, ns[0], a, b) && FormsStand(src, ns[1..], b, j)
  }

  /** The same for a whole source, whose last comment may run to its end. */
  ghost predicate SourceStands(src: string, ns: seq<Node>, i: nat)
    decreases |ns|
  {
    i <= |src| &&
    if ns == [] then IsFinalGap(src[i..])
    else
      exists a: nat, b: nat ::
        i <= a < b <= |src| && IsGap(src[i..a]) && FormStands(src, ns[0], a, b) && SourceStands(src, ns[1..], b)
  }

  lemma {:induction false} FormsCons(src: string, n: Node, ns: seq<Node>, i: nat, a: nat, b: nat, j: nat)
    requires i <= a < b <= j <= |src| && IsGap(src[i..a]) && FormStands(src, n, a, b) && FormsStand(src, ns, b, j)
    ensures FormsStand(src, [n] + ns, i, j)
  {
    hide IsGap, FormStands;
    assert ([n] + ns)[0] == n && ([n] + ns)[1..] == ns;
  }

  lemma {:induction false} SourceCons(src: string, n: Node, ns: seq<Node>, i: nat, a: nat, b: nat)
    requires i <= a < b <= |src| && IsGap(src[i..a]) && FormStands(src, n, a, b) && SourceStands(src, ns, b)
    ensures SourceStands(src, [n] + ns, i)
  {
    hide IsGap, FormStands;
    assert ([n] + ns)[0] == n && ([n] + ns)[1..] == ns;
  }

  lemma {:induction false} LeafStands(src: string, pos: nat, at: nat, next: nat, t: PlacedToken)
    requires Stands(src, pos, at, next, t) && (t.tok.Atom? || t.tok.Str?)
    ensures FormStands(src, Leaf(t), at, next)
  {
    hide IsGap, Spells, Line, Col;
  }

  lemma {:induction false} ParenStands(src: string, pos: nat, at: nat, next: nat, t: PlacedToken)
    requires Stands(src, pos, at, next, t) && (t.tok.LParen? || t.tok.RParen?)
    ensures next == at + 1 && src[at] == if t.tok.LParen? then '(' else ')'
  {
    assert |src[at..next]| == 1 && src[at..next][0] == src[at];
  }

  lemma {:induction false} ListStands(src: string, items: seq<Node>, i: nat, j: nat, line: nat, col: nat)
    requires i + 1 < j <= |src| && src[i] == '(' && src[j - 1] == ')' && FormsStand(src, items, i + 1, j - 1)
    requires line == Line(src, i) && col == Col(src, i)
    ensures FormStands(src, ListNode(items, line, col), i, j)
  {
    hide FormsStand, Line, Col;
  }

  /** The forms of a list, up to its parenthesis, which stands last. */
  lemma {:induction false} ItemsStand(src: string, i: nat)
    requires i <= |src| && Items(src, i).Some?
    ensures var p := Items(src, i).value;
            i < p.next <= |src| && src[p.next - 1] == ')' && FormsStand(src, p.items, i, p.next - 1)
    decreases |src| - i
  {
    hide Lex, IsGap, Spells, FormsStand, FormStands, Line, Col;
    var x := Lex(src, i).value;
    var at := TokensStand(src, i);
    var p := Items(src, i).value;
    if x.t.tok.RParen? {
      ParenStands(src, i, at, x.next, x.t);
      NoForms(src, i, at);
    } else {
      var j := x.next;
      if x.t.tok.LParen? {
        ParenStands(src, i, at, x.next, x.t);
        ItemsStand(src, x.next);
        var sub := Items(src, x.next).value;
        ListStands(src, sub.items, at, sub.next, x.t.line, x.t.col);
        j := sub.next;
      } else {
        LeafStands(src, i, at, x.next, x.t);
      }
      ItemsStand(src, j);
      FormsCons(src, p.items[0], Items(src, j).value.items, i, at, j, p.next - 1);
    }
  }

  lemma {:induction false} NoForms(src: string, i: nat, j: nat)
    requires i <= j <= |src| && IsGap(src[i..j])
    ensures FormsStand(src, [], i, j)
  {
    hide IsGap;
  }

  lemma {:induction false} TopStands(src: string, i: nat)
    requires i <= |src| && Top(src, i).Some?
    ensures SourceStands(src, Top(src, i).value, i)
    decreases |src| - i
  {
    hide Lex, IsGap, IsFinalGap, Spells, FormsStand, FormStands, Line, Col, SourceStands;
    var x := Lex(src, i).value;
    if x.t.tok.Eof? {
      EndStands(src, i);
      NoSource(src, i);
    } else {
      var at := TokensStand(src, i);
      var one := Form(src, i).value;
      if x.t.tok.LParen? {
        ParenStands(src, i, at, x.next, x.t);
        ItemsStand(src, x.next);
        ListStands(src, Items(src, x.next).value.items, at, one.next, x.t.line, x.t.col);
      } else {
        LeafStands(src, i, at, x.next, x.t);
      }
      TopStands(src, one.next);
      SourceCons(src, one.form.value, Top(src, one.next).value, i, at, one.next);
    }
  }

  lemma {:induction false} NoSource(src: string, i: nat)
    requires i <= |src| && IsFinalGap(src[i..])
    ensures SourceStands(src, [], i)
  {
    hide IsFinalGap;
  }

  /** Every form that is parsed, at any depth, is placed at the first character of its own text:
      an opening parenthesis for a list. */
  lemma {:induction false} ParsedFormsStand(src: string)
    requires Parse(src).Some?
    ensures SourceStands(src, Parse(src).value, 0)
  {
    hide SourceStands, Top;
    TopStands(src, 0);
  }
}
