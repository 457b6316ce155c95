/** The recursive parser of stage0 (sexpr.c).  Where the C code dies with a diagnostic the
    model returns None. */
module Parsing {
  import opened Wrappers
  import opened Lexing

  /** A form with the position of its first character. */
  datatype Node =
    | AtomNode(text: string, line: nat, col: nat)
    | StrNode(text: string, line: nat, col: nat)
    | ListNode(items: seq<Node>, line: nat, col: nat)

  datatype Parsed = Parsed(items: seq<Node>, next: nat)

  function Cons(n: Node, p: Option<Parsed>): Option<Parsed> {
    match p
    case None => None
    case Some(r) => Some(Parsed([n] + r.items, r.next))
  }

  function Leaf(t: PlacedToken): Node
    requires t.tok.Atom? || t.tok.Str?
  {
    if t.tok.Atom? then AtomNode(t.tok.text, t.line, t.col) else StrNode(t.tok.text, t.line, t.col)
  }

  /** The forms from position `i` to the parenthesis that closes the list around them. */
  function Items(src: string, i: nat): (r: Option<Parsed>)
    requires i <= |src|
    ensures r.Some? ==> i < r.value.next <= |src|
    decreases |src| - i
  {
    match Lex(src, i)
    case None => None
    case Some(x) =>
      match x.t.tok
      case Eof => None
      case RParen => Some(Parsed([], x.next))
      case LParen =>
        (match Items(src, x.next)
         case None => None
         case Some(sub) => Cons(ListNode(sub.items, x.t.line, x.t.col), Items(src, sub.next)))
      case _ => Cons(Leaf(x.t), Items(src, x.next))
  }

  /** One form, or None in `form` at the end of the input. */
  datatype One = One(form: Option<Node>, next: nat)

  function Form(src: string, i: nat): (r: Option<One>)
    requires i <= |src|
    ensures r.Some? ==> r.value.next <= |src| && (r.value.form.Some? ==> i < r.value.next)
  {
    match Lex(src, i)
    case None => None
    case Some(x) =>
      match x.t.tok
      case Eof => Some(One(None, x.next))
      case RParen => None
      case LParen =>
        (match Items(src, x.next)
         case None => None
         case Some(sub) => Some(One(Some(ListNode(sub.items, x.t.line, x.t.col)), sub.next)))
      case _ => Some(One(Some(Leaf(x.t)), x.next))
  }

  function Top(src: string, i: nat): Option<seq<Node>>
    requires i <= |src|
    decreases |src| - i
  {
    match Form(src, i)
    case None => None
    case Some(one) =>
      if one.form.None? then Some([])
      else match Top(src, one.next)
           case None => None
           case Some(rest) => Some([one.form.value] + rest)
  }

  function Parse(src: string): Option<seq<Node>> {
    Top(src, 0)
  }

  function Append(items: seq<Node>, p: Option<Parsed>): (r: Option<Parsed>)
    ensures items == [] ==> r == p
  {
    match p
    case None => None
    case Some(q) =>
      assert items == [] ==> items + q.items == q.items;
      Some(Parsed(items + q.items, q.next))
  }

  lemma {:induction false} AppendCons(items: seq<Node>, n: Node, p: Option<Parsed>)
    ensures Append(items, Cons(n, p)) == Append(items + [n], p)
  {
    if p.Some? {
      assert items + ([n] + p.value.items) == items + [n] + p.value.items;
    }
  }

  /** parse_list, called behind the opening parenthesis */
  method ParseList(lx: Lexer, line: nat, col: nat) returns (r: Option<Node>)
    requires lx.Valid()
    modifies lx
    ensures lx.Valid()
    ensures match Items(lx.src, old(lx.pos))
            case None => r == None
            case Some(p) => r == Some(ListNode(p.items, line, col)) && lx.pos == p.next
    decreases |lx.src| - lx.pos
  {
    hide Lex;
    var items: seq<Node> := [];
    while true
      invariant lx.Valid() && old(lx.pos) <= lx.pos
      invariant Items(lx.src, old(lx.pos)) == Append(items, Items(lx.src, lx.pos))
      decreases |lx.src| - lx.pos
    {
      var t := lx.LexNext();
      if t.None? || t.value.tok.Eof? {
        return None;
      }
      if t.value.tok.RParen? {
        assert items + [] == items;
        return Some(ListNode(items, line, col));
      }
      var n: Node;
      if t.value.tok.LParen? {
        var sub := ParseList(lx, t.value.line, t.value.col);
        if sub.None? {
          return None;
        }
        n := sub.value;
      } else {
        n := Leaf(t.value);
      }
      AppendCons(items, n, Items(lx.src, lx.pos));
      items := items + [n];
    }
  }

  /** parse_node: None inside Some at the end of the input */
  method ParseNode(lx: Lexer) returns (r: Option<Option<Node>>)
    requires lx.Valid()
    modifies lx
    ensures lx.Valid()
    ensures match Form(lx.src, old(lx.pos))
            case None => r == None
            case Some(one) => r == Some(one.form) && lx.pos == one.next
  {
    hide Lex;
    var t := lx.LexNext();
    if t.None? || t.value.tok.RParen? {
      return None;
    }
    if t.value.tok.Eof? {
      return Some(None);
    }
    if t.value.tok.LParen? {
      var sub := ParseList(lx, t.value.line, t.value.col);
      return if sub.None? then None else Some(sub);
    }
    return Some(Some(Leaf(t.value)));
  }

  function Onto(top: seq<Node>, rest: Option<seq<Node>>): (r: Option<seq<Node>>)
    ensures top == [] ==> r == rest
  {
    match rest
    case None => None
    case Some(ns) =>
      assert top == [] ==> top + ns == ns;
      Some(top + ns)
  }

  lemma {:induction false} OntoCons(top: seq<Node>, n: Node, rest: Option<seq<Node>>)
    ensures Onto(top, Onto([n], rest)) == Onto(top + [n], rest)
  {
    if rest.Some? {
      assert top + ([n] + rest.value) == top + [n] + rest.value;
    }
  }

  /** parse_top */
  method ParseTop(src: string) returns (r: Option<seq<Node>>)
    ensures r == Parse(src)
  {
    hide Form;
    var lx := new Lexer(src);
    var top: seq<Node> := [];
    while true
      invariant lx.Valid() && lx.src == src
      invariant Parse(src) == Onto(top, Top(src, lx.pos))
      decreases |src| - lx.pos
    {
      var n := ParseNode(lx);
      if n.None? {
        return None;
      }
      if n.value.None? {
        assert top + [] == top;
        return Some(top);
      }
      OntoCons(top, n.value.value, Top(src, lx.pos));
      top := top + [n.value.value];
    }
  }
}
