/** The parser of stage1 (sexpr_parser.weave): it reads tokens, which are strings, and builds
    trees in an arena. */
module TokenParser {
  import opened Arenas

  // ---------- tokens ----------

  function FirstColon(tok: string): (i: nat)
    ensures i <= |tok| && (forall k :: 0 <= k < i ==> tok[k] != ':') && (i < |tok| ==> tok[i] == ':')
  {
    if tok == "" || tok[0] == ':' then 0 else 1 + FirstColon(tok[1..])
  }

  /** What follows the first colon; the whole token if it has none. */
  function TokenText(tok: string): string {
    var i := FirstColon(tok);
    if i < |tok| then tok[i + 1..] else tok
  }

  /** The value of the atom that a token stands for; string literals are marked. */
  function AtomValue(tok: string): string {
    if "STRING:" <= tok then "strlit:" + TokenText(tok) else TokenText(tok)
  }

  /** token-value */
  method TokenValue(tok: string) returns (v: string)
    ensures v == TokenText(tok)
  {
    var i := 0;
    while i < |tok| && tok[i] != ':'
      invariant i <= |tok| && forall k :: 0 <= k < i ==> tok[k] != ':'
    {
      i := i + 1;
    }
    assert i == FirstColon(tok);
    v := if i < |tok| then tok[i + 1..] else tok;
  }

  // ---------- what is parsed ----------

  datatype Parsed = Parsed(tree: Tree, next: nat)
  datatype ParsedKids = ParsedKids(trees: seq<Tree>, next: nat)

  /** One expression.  A missing closing parenthesis counts as one behind the end, so `next`
      may pass the end; a stray one, or the end mark, reads as an empty atom. */
  function ParseAt(ts: seq<string>, pos: nat): (r: Parsed)
    requires pos < |ts|
    ensures pos < r.next
    decreases |ts| - pos, 0
  {
    if ts[pos] == "LPAREN" then
      var k := ParseKids(ts, pos + 1);
      Parsed(Tree(ListKind, "", k.trees), k.next + 1)
    else if ts[pos] == "RPAREN" || ts[pos] == "EOF" then Parsed(Tree(AtomKind, "", []), pos + 1)
    else Parsed(Tree(AtomKind, AtomValue(ts[pos]), []), pos + 1)
  }

  function Before(ts: seq<string>, i: nat): nat {
    if i < |ts| then |ts| - i else 0
  }

  /** Expressions up to a closing parenthesis or the end. */
  function ParseKids(ts: seq<string>, i: nat): (r: ParsedKids)
    ensures i <= r.next
    decreases Before(ts, i), 1
  {
    if i < |ts| && ts[i] != "RPAREN" then
      var p := ParseAt(ts, i);
      var r := ParseKids(ts, p.next);
      ParsedKids([p.tree] + r.trees, r.next)
    else ParsedKids([], i)
  }

  function TopKids(ts: seq<string>, pos: nat): seq<Tree>
    decreases Before(ts, pos)
  {
    if pos >= |ts| || ts[pos] == "EOF" then []
    else
      var p := ParseAt(ts, pos);
      [p.tree] + TopKids(ts, p.next)
  }

  const TOP_MARK := Tree(AtomKind, "multi-top", [])

  /** All expressions, under a list headed by a mark. */
  function TopTree(ts: seq<string>): Tree {
    Tree(ListKind, "", [TOP_MARK] + TopKids(ts, 0))
  }

  lemma {:induction false} ParseKidsStep(ts: seq<string>, i: nat, done: seq<Tree>)
    requires i < |ts| && ts[i] != "RPAREN"
    ensures var p := ParseAt(ts, i);
            done + ParseKids(ts, i).trees == (done + [p.tree]) + ParseKids(ts, p.next).trees &&
            ParseKids(ts, i).next == ParseKids(ts, p.next).next
  {
    var p := ParseAt(ts, i);
    Cat(done, [p.tree], ParseKids(ts, p.next).trees);
  }

  /** parse-expr-at: one new tree in the arena, all earlier nodes as they were, and the
      position behind the expression. */
  method ParseExprAt(a: Arena, tokens: seq<string>, pos: nat) returns (result: int, next: nat)
    requires Valid(a.Now()) && pos < |tokens|
    modifies a
    ensures Added(old(a.Now()), a.Now(), result, ParseAt(tokens, pos).tree)
    ensures next == ParseAt(tokens, pos).next
    decreases |tokens| - pos
  {
    hide Shape, OnePredecessor, Building, Decode, Prefix, Linkable, Link, Added;
    ghost var before := a.Now();
    if tokens[pos] == "LPAREN" {
      BuildStart(before, ListKind, "");
      result := a.AddNode(ListKind, "");
      var i := pos + 1;
      var prev := NONE;
      ghost var done: seq<Tree> := [];
      while i < |tokens| && tokens[i] != "RPAREN"
        invariant pos < i && Building(before, a.Now(), result, ListKind, "", done, prev)
        invariant ParseKids(tokens, pos + 1).next == ParseKids(tokens, i).next
        invariant ParseKids(tokens, pos + 1).trees == done + ParseKids(tokens, i).trees
        decreases |tokens| - i
      {
        ghost var s := a.Now();
        BuildingValid(before, s, result, ListKind, "", done, prev);
        ParseKidsStep(tokens, i, done);
        ghost var tree := ParseAt(tokens, i).tree;
        var child;
        child, i := ParseExprAt(a, tokens, i);
        BuildMore(before, s, a.Now(), result, ListKind, "", done, prev, child, tree);
        a.LinkBehind(result, prev, child);
        done := done + [tree];
        prev := child;
      }
      assert done + [] == done;
      BuildEnd(before, a.Now(), result, ListKind, "", done, prev);
      next := i + 1;
    } else {
      var v := "";
      if tokens[pos] != "RPAREN" && tokens[pos] != "EOF" {
        v := TokenValue(tokens[pos]);
        if "STRING:" <= tokens[pos] {
          v := "strlit:" + v;
        }
      }
      BuildStart(before, AtomKind, v);
      result := a.AddNode(AtomKind, v);
      BuildEnd(before, a.Now(), result, AtomKind, v, [], NONE);
      next := pos + 1;
    }
  }

  /** parse-top: the trees of all expressions, under one new root. */
  method ParseTop(a: Arena, tokens: seq<string>) returns (root: int)
    requires Valid(a.Now())
    modifies a
    ensures Added(old(a.Now()), a.Now(), root, TopTree(tokens))
  {
    hide Shape, OnePredecessor, Building, Decode, Prefix, Linkable, Link, Added;
    ghost var before := a.Now();
    BuildStart(before, ListKind, "");
    root := a.AddNode(ListKind, "");
    ghost var s := a.Now();
    BuildingValid(before, s, root, ListKind, "", [], NONE);
    BuildStart(s, AtomKind, "multi-top");
    var prev := a.AddNode(AtomKind, "multi-top");
    BuildEnd(s, a.Now(), prev, AtomKind, "multi-top", [], NONE);
    BuildMore(before, s, a.Now(), root, ListKind, "", [], NONE, prev, TOP_MARK);
    a.LinkBehind(root, NONE, prev);
    ghost var done := [TOP_MARK];
    assert [] + [TOP_MARK] == done;
    var pos := 0;
    while pos < |tokens|
      invariant Building(before, a.Now(), root, ListKind, "", done, prev)
      invariant [TOP_MARK] + TopKids(tokens, 0) == done + TopKids(tokens, pos)
      decreases |tokens| - pos
    {
      if tokens[pos] == "EOF" {
        assert TopKids(tokens, |tokens|) == [] == TopKids(tokens, pos);
        pos := |tokens|;
      } else {
        s := a.Now();
        BuildingValid(before, s, root, ListKind, "", done, prev);
        ghost var p := ParseAt(tokens, pos);
        Cat(done, [p.tree], TopKids(tokens, p.next));
        var child;
        child, pos := ParseExprAt(a, tokens, pos);
        BuildMore(before, s, a.Now(), root, ListKind, "", done, prev, child, p.tree);
        a.LinkBehind(root, prev, child);
        done := done + [p.tree];
        prev := child;
      }
    }
    assert done + [] == done;
    BuildEnd(before, a.Now(), root, ListKind, "", done, prev);
  }

  // ---------- reading back ----------

  /** A tree as written in tokens.  A list may lack its closing parenthesis at the end of the
      tokens; inside a list the end mark is a leaf, outside a stray parenthesis is one. */
  datatype Form = Leaf(tok: string) | Group(items: seq<Form>, closed: bool)

  /** `last` says that no token follows. */
  predicate FormOk(f: Form, inside: bool, last: bool) {
    match f
    case Leaf(tok) => tok != "LPAREN" && tok != (if inside then "RPAREN" else "EOF")
    case Group(items, closed) => (closed || last) && FormsOk(items, true, !closed)
  }

  predicate FormsOk(fs: seq<Form>, inside: bool, last: bool) {
    fs == [] || (FormOk(fs[0], inside, last && |fs| == 1) && FormsOk(fs[1..], inside, last))
  }

  function Tokens(f: Form): (ts: seq<string>)
    ensures ts != []
  {
    match f
    case Leaf(tok) => [tok]
    case Group(items, closed) => ["LPAREN"] + AllTokens(items) + Closing(closed)
  }

  function Closing(closed: bool): seq<string> {
    if closed then ["RPAREN"] else []
  }

  function AllTokens(fs: seq<Form>): seq<string> {
    if fs == [] then [] else Tokens(fs[0]) + AllTokens(fs[1..])
  }

  /** The closing parentheses that are missing. */
  function Missing(f: Form): nat {
    match f
    case Leaf(_) => 0
    case Group(items, closed) => if closed then 0 else 1 + AllMissing(items)
  }

  function AllMissing(fs: seq<Form>): nat {
    if fs == [] then 0 else Missing(fs[0]) + AllMissing(fs[1..])
  }

  function TreeOf(f: Form): Tree {
    match f
    case Leaf(tok) => Tree(AtomKind, if tok == "RPAREN" || tok == "EOF" then "" else AtomValue(tok), [])
    case Group(items, _) => Tree(ListKind, "", TreesOf(items))
  }

  function TreesOf(fs: seq<Form>): seq<Tree> {
    if fs == [] then [] else [TreeOf(fs[0])] + TreesOf(fs[1..])
  }

  lemma {:induction false} FirstToken(f: Form, inside: bool, last: bool)
    requires FormOk(f, inside, last)
    ensures Tokens(f)[0] != if inside then "RPAREN" else "EOF"
  {
  }

  lemma {:induction false} DropFront(ts: seq<string>, i: nat, a: seq<string>, b: seq<string>)
    requires i <= |ts| && ts[i..] == a + b
    ensures i + |a| <= |ts| && ts[i + |a|..] == b && (a != [] ==> ts[i] == a[0])
  {
    assert |ts[i..]| == |a| + |b|;
    assert ts[i + |a|..] == ts[i..][|a|..];
    assert a != [] ==> ts[i] == ts[i..][0];
  }

  lemma {:induction false} CatTokens(a: seq<string>, b: seq<string>, c: seq<string>)
    ensures (a + b) + c == a + (b + c)
  {
  }

  /** Nothing is missing before further tokens. */
  lemma {:induction false} NoneMissing(f: Form, inside: bool)
    requires FormOk(f, inside, false)
    ensures Missing(f) == 0
  {
  }

  /** Parsing the tokens of a tree gives the tree, whatever follows. */
  lemma {:induction false} ParseInvertsTokens(ts: seq<string>, pos: nat, f: Form, inside: bool, rest: seq<string>)
    requires FormOk(f, inside, rest == []) && pos <= |ts| && ts[pos..] == Tokens(f) + rest
    ensures pos < |ts| && ParseAt(ts, pos) == Parsed(TreeOf(f), pos + |Tokens(f)| + Missing(f))
    decreases f
  {
    hide AtomValue, ParseKids;
    DropFront(ts, pos, Tokens(f), rest);
    if f.Group? {
      var end := Closing(f.closed);
      CatTokens(["LPAREN"] + AllTokens(f.items), end, rest);
      CatTokens(["LPAREN"], AllTokens(f.items), end + rest);
      DropFront(ts, pos, ["LPAREN"], AllTokens(f.items) + (end + rest));
      KidsInvertTokens(ts, pos + 1, f.items, f.closed, rest);
    }
  }

  lemma {:induction false} KidsInvertTokens(ts: seq<string>, i: nat, fs: seq<Form>, closed: bool, rest: seq<string>)
    requires FormsOk(fs, true, !closed) && i <= |ts| && ts[i..] == AllTokens(fs) + (Closing(closed) + rest)
    requires closed || rest == []
    ensures var missing := if closed then 0 else AllMissing(fs);
            ParseKids(ts, i) == ParsedKids(TreesOf(fs), i + |AllTokens(fs)| + missing)
    decreases fs
  {
    hide AtomValue, ParseAt, Tokens, TreeOf, Missing, FormOk, ParseKids;
    var end := Closing(closed) + rest;
    if fs == [] {
      DropFront(ts, i, [], end);
      DropFront(ts, i, Closing(closed), rest);
      KidsEnd(ts, i);
    } else {
      var more := AllTokens(fs[1..]) + end;
      var next := i + |Tokens(fs[0])|;
      CatTokens(Tokens(fs[0]), AllTokens(fs[1..]), end);
      FirstToken(fs[0], true, !closed && |fs| == 1);
      assert more == [] <==> !closed && |fs| == 1;
      ParseInvertsTokens(ts, i, fs[0], true, more);
      DropFront(ts, i, Tokens(fs[0]), more);
      KidsStep(ts, i);
      if more == [] {
        KidsEnd(ts, next + Missing(fs[0]));
      } else {
        NoneMissing(fs[0], true);
        KidsInvertTokens(ts, next, fs[1..], closed, rest);
      }
    }
  }

  lemma {:induction false} KidsStep(ts: seq<string>, i: nat)
    requires i < |ts| && ts[i] != "RPAREN"
    ensures var p := ParseAt(ts, i);
            var r := ParseKids(ts, p.next);
            ParseKids(ts, i) == ParsedKids([p.tree] + r.trees, r.next)
  {
    hide ParseAt;
  }

  lemma {:induction false} KidsEnd(ts: seq<string>, i: nat)
    requires i < |ts| ==> ts[i] == "RPAREN"
    ensures ParseKids(ts, i) == ParsedKids([], i)
  {
  }

  /** Parsing stops at the end of the tokens or at an end mark outside all lists. */
  predicate AtEnd(tail: seq<string>) {
    tail == [] || tail[0] == "EOF"
  }

  lemma {:induction false} TopInvertsTokens(ts: seq<string>, pos: nat, fs: seq<Form>, tail: seq<string>)
    requires AtEnd(tail) && FormsOk(fs, false, tail == []) && pos <= |ts| && ts[pos..] == AllTokens(fs) + tail
    ensures TopKids(ts, pos) == TreesOf(fs)
    decreases fs
  {
    hide AtomValue, ParseAt, Tokens, TreeOf, Missing, FormOk, TopKids;
    if fs == [] {
      DropFront(ts, pos, [], tail);
      TopEnd(ts, pos, tail);
    } else {
      var more := AllTokens(fs[1..]) + tail;
      var next := pos + |Tokens(fs[0])|;
      CatTokens(Tokens(fs[0]), AllTokens(fs[1..]), tail);
      FirstToken(fs[0], false, tail == [] && |fs| == 1);
      assert more == [] <==> tail == [] && |fs| == 1;
      ParseInvertsTokens(ts, pos, fs[0], false, more);
      DropFront(ts, pos, Tokens(fs[0]), more);
      TopStep(ts, pos);
      if more == [] {
        TopEnd(ts, next + Missing(fs[0]), []);
      } else {
        NoneMissing(fs[0], false);
        TopInvertsTokens(ts, next, fs[1..], tail);
      }
    }
  }

  lemma {:induction false} TopStep(ts: seq<string>, pos: nat)
    requires pos < |ts| && ts[pos] != "EOF"
    ensures var p := ParseAt(ts, pos); TopKids(ts, pos) == [p.tree] + TopKids(ts, p.next)
  {
    hide ParseAt;
  }

  lemma {:induction false} TopEnd(ts: seq<string>, pos: nat, tail: seq<string>)
    requires AtEnd(tail) && (pos < |ts| ==> ts[pos..] == tail)
    ensures TopKids(ts, pos) == []
  {
    if pos < |ts| {
      assert ts[pos] == ts[pos..][0];
    }
  }

  /** A token stream of a forest parses to that forest under the mark. */
  lemma {:induction false} TopRoundTrip(fs: seq<Form>, tail: seq<string>)
    requires AtEnd(tail) && FormsOk(fs, false, tail == [])
    ensures TopTree(AllTokens(fs) + tail) == Tree(ListKind, "", [TOP_MARK] + TreesOf(fs))
  {
    var ts := AllTokens(fs) + tail;
    assert ts[0..] == ts;
    TopInvertsTokens(ts, 0, fs, tail);
  }

  // ---------- every stream ----------

  lemma {:induction false} ReadForm(ts: seq<string>, pos: nat, inside: bool) returns (f: Form, next: nat)
    requires pos < |ts| && ts[pos] != if inside then "RPAREN" else "EOF"
    ensures pos < next <= |ts| && ts[pos..next] == Tokens(f) && FormOk(f, inside, next == |ts|)
    decreases |ts| - pos, 0
  {
    if ts[pos] == "LPAREN" {
      var items, end := ReadForms(ts, pos + 1);
      var closed := end < |ts|;
      f, next := Group(items, closed), if closed then end + 1 else end;
      assert ts[pos..next] == ["LPAREN"] + ts[pos + 1..end] + Closing(closed);
    } else {
      f, next := Leaf(ts[pos]), pos + 1;
    }
  }

  lemma {:induction false} ReadForms(ts: seq<string>, i: nat) returns (fs: seq<Form>, next: nat)
    requires i <= |ts|
    ensures i <= next <= |ts| && ts[i..next] == AllTokens(fs) && FormsOk(fs, true, next == |ts|)
    ensures next == |ts| || ts[next] == "RPAREN"
    decreases |ts| - i, 1
  {
    hide FormOk, Tokens;
    if i == |ts| || ts[i] == "RPAREN" {
      fs, next := [], i;
    } else {
      var f, mid := ReadForm(ts, i, true);
      var more;
      more, next := ReadForms(ts, mid);
      fs := [f] + more;
      JoinForms(ts, i, mid, next, f, more, true, next == |ts|);
    }
  }

  lemma {:induction false} JoinForms(ts: seq<string>, i: nat, mid: nat, next: nat, f: Form, fs: seq<Form>,
          inside: bool, last: bool)
    requires i <= mid <= next <= |ts| && ts[i..mid] == Tokens(f) && ts[mid..next] == AllTokens(fs)
    requires FormOk(f, inside, mid == |ts|) && FormsOk(fs, inside, last)
    requires mid == next ==> last == (next == |ts|)
    ensures ts[i..next] == AllTokens([f] + fs) && FormsOk([f] + fs, inside, last)
  {
    hide FormOk, Tokens;
    assert ts[i..next] == ts[i..mid] + ts[mid..next];
    assert ([f] + fs)[1..] == fs;
  }

  lemma {:induction false} ReadTop(ts: seq<string>, i: nat) returns (fs: seq<Form>, next: nat)
    requires i <= |ts|
    ensures i <= next <= |ts| && ts[i..next] == AllTokens(fs) && FormsOk(fs, false, next == |ts|) && AtEnd(ts[next..])
    decreases |ts| - i
  {
    hide FormOk, Tokens;
    if i == |ts| || ts[i] == "EOF" {
      fs, next := [], i;
    } else {
      var f, mid := ReadForm(ts, i, false);
      var more;
      more, next := ReadTop(ts, mid);
      fs := [f] + more;
      JoinForms(ts, i, mid, next, f, more, false, next == |ts|);
    }
  }

  /** Every stream is that of a forest, and parses to it: no stream is refused. */
  lemma {:induction false} EveryStreamReads(ts: seq<string>) returns (fs: seq<Form>, tail: seq<string>)
    ensures AtEnd(tail) && FormsOk(fs, false, tail == []) && AllTokens(fs) + tail == ts
    ensures TopTree(ts) == Tree(ListKind, "", [TOP_MARK] + TreesOf(fs))
  {
    var next;
    fs, next := ReadTop(ts, 0);
    tail := ts[next..];
    assert ts[..next] + tail == ts && ts[0..next] == ts[..next];
    TopRoundTrip(fs, tail);
  }

  /** A token's class: a text up to its only colon. */
  predicate IsClass(prefix: string) {
    prefix != "" && prefix[|prefix| - 1] == ':' && forall k :: 0 <= k < |prefix| - 1 ==> prefix[k] != ':'
  }

  /** An atom's value is the text behind its class, colons and all; only string literals are
      marked. */
  lemma {:induction false} ValueOfToken(prefix: string, text: string)
    requires IsClass(prefix)
    ensures AtomValue(prefix + text) == if prefix == "STRING:" then "strlit:" + text else text
  {
    var tok := prefix + text;
    var i := FirstColon(tok);
    assert tok[|prefix| - 1] == ':' && forall k :: 0 <= k < |prefix| - 1 ==> tok[k] == prefix[k];
    assert i == |prefix| - 1 && tok[|prefix|..] == text;
    var s := "STRING:";
    if s <= tok {
      assert s[6] == ':' && forall k :: 0 <= k < 6 ==> s[k] != ':';
      assert tok[..7] == s && tok[6] == ':';
      assert |prefix| == 7 && prefix == tok[..7];
    }
  }
}
