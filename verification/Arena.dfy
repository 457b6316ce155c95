/** The arena of stage1 (arena/core_ops.weave): trees kept in parallel arrays, linked by
    first-child and next-sibling ids. */
module Arenas {
  datatype NodeKind = AtomKind | ListKind

  /** The tree that a node id stands for. */
  datatype Tree = Tree(kind: NodeKind, value: string, kids: seq<Tree>)

  const NONE := -1

  /** The contents of an arena at one moment. */
  datatype Store = Store(kinds: seq<NodeKind>, values: seq<string>, first: seq<int>, next: seq<int>) {
    function Size(): nat { |kinds| }

    predicate Has(id: int) { 0 <= id < |kinds| }
  }

  // ---------- the invariant ----------

  /** A link is absent or leads to a larger id. */
  predicate LinkOk(s: Store, id: nat, to: int) {
    to == NONE || id < to < s.Size()
  }

  predicate Shape(s: Store) {
    |s.kinds| == |s.values| == |s.first| == |s.next| &&
    forall id :: 0 <= id < s.Size() ==> LinkOk(s, id, s.first[id]) && LinkOk(s, id, s.next[id])
  }

  /** No node is reached by two links. */
  ghost predicate OnePredecessor(s: Store)
    requires Shape(s)
  {
    (forall x, y :: s.Has(x) && s.Has(y) && s.first[x] == s.first[y] != NONE ==> x == y) &&
    (forall x, y :: s.Has(x) && s.Has(y) && s.next[x] == s.next[y] != NONE ==> x == y) &&
    (forall x, y :: s.Has(x) && s.Has(y) && s.first[x] != NONE ==> s.first[x] != s.next[y])
  }

  ghost predicate Valid(s: Store) {
    Shape(s) && OnePredecessor(s)
  }

  /** No link leads to `id`. */
  ghost predicate Unlinked(s: Store, id: int)
    requires Shape(s)
  {
    forall x :: s.Has(x) ==> s.first[x] != id && s.next[x] != id
  }

  // ---------- decoding ----------

  predicate LinkIn(s: Store, c: int) {
    c == NONE || s.Has(c)
  }

  function Rank(s: Store, c: int): nat {
    if s.Has(c) then s.Size() - c else 0
  }

  function Decode(s: Store, id: int): Tree
    requires Shape(s) && s.Has(id)
    decreases Rank(s, id), 0
  {
    assert LinkOk(s, id, s.first[id]);
    Tree(s.kinds[id], s.values[id], DecodeChain(s, s.first[id]))
  }

  /** The trees of a node and its later siblings. */
  function DecodeChain(s: Store, c: int): seq<Tree>
    requires Shape(s) && LinkIn(s, c)
    decreases Rank(s, c), 1
  {
    if c == NONE then []
    else
      assert LinkOk(s, c, s.next[c]);
      [Decode(s, c)] + DecodeChain(s, s.next[c])
  }

  function Kids(s: Store, id: int): seq<Tree>
    requires Shape(s) && s.Has(id)
  {
    assert LinkOk(s, id, s.first[id]);
    DecodeChain(s, s.first[id])
  }

  /** The ids of a node and its later siblings. */
  function Chain(s: Store, c: int): (ids: seq<int>)
    requires Shape(s) && LinkIn(s, c)
    ensures forall k :: 0 <= k < |ids| ==> s.Has(ids[k]) && c <= ids[k]
    decreases Rank(s, c)
  {
    if c == NONE then []
    else
      assert LinkOk(s, c, s.next[c]);
      [c] + Chain(s, s.next[c])
  }

  function KidIds(s: Store, id: int): (ids: seq<int>)
    requires Shape(s) && s.Has(id)
    ensures forall k :: 0 <= k < |ids| ==> s.Has(ids[k]) && id < ids[k]
  {
    assert LinkOk(s, id, s.first[id]);
    Chain(s, s.first[id])
  }

  /** All ids of the tree at a node. */
  function Under(s: Store, id: int): (ids: set<int>)
    requires Shape(s) && s.Has(id)
    ensures id in ids && forall x :: x in ids ==> id <= x < s.Size()
    decreases Rank(s, id), 0
  {
    assert LinkOk(s, id, s.first[id]);
    {id} + UnderChain(s, s.first[id])
  }

  function UnderChain(s: Store, c: int): (ids: set<int>)
    requires Shape(s) && LinkIn(s, c)
    ensures forall x :: x in ids ==> c <= x < s.Size()
    decreases Rank(s, c), 1
  {
    if c == NONE then {}
    else
      assert LinkOk(s, c, s.next[c]);
      Under(s, c) + UnderChain(s, s.next[c])
  }

  // ---------- growing ----------

  /** `t` is `s` with nodes added behind. */
  predicate Prefix(s: Store, t: Store) {
    s.kinds <= t.kinds && s.values <= t.values && s.first <= t.first && s.next <= t.next
  }

  /** Added nodes change no tree. */
  lemma {:induction false} PrefixDecode(s: Store, t: Store, id: int)
    requires Shape(s) && Shape(t) && Prefix(s, t) && s.Has(id)
    ensures Decode(t, id) == Decode(s, id) && Under(t, id) == Under(s, id)
    decreases Rank(s, id), 0
  {
    assert LinkOk(s, id, s.first[id]);
    PrefixDecodeChain(s, t, s.first[id]);
  }

  lemma {:induction false} PrefixDecodeChain(s: Store, t: Store, c: int)
    requires Shape(s) && Shape(t) && Prefix(s, t) && LinkIn(s, c)
    ensures DecodeChain(t, c) == DecodeChain(s, c) && UnderChain(t, c) == UnderChain(s, c) && Chain(t, c) == Chain(s, c)
    decreases Rank(s, c), 1
  {
    if c != NONE {
      assert LinkOk(s, c, s.next[c]);
      PrefixDecode(s, t, c);
      PrefixDecodeChain(s, t, s.next[c]);
    }
  }

  /** The first added node is a root: earlier links stay below it, later links go above
      themselves. */
  lemma {:induction false} FirstAddedIsRoot(s: Store, t: Store)
    requires Shape(s) && Shape(t) && Prefix(s, t)
    ensures Unlinked(t, s.Size())
  {
    forall x | t.Has(x) ensures t.first[x] != s.Size() && t.next[x] != s.Size() {
      assert LinkOk(t, x, t.first[x]) && LinkOk(t, x, t.next[x]);
      if s.Has(x) {
        assert LinkOk(s, x, s.first[x]) && LinkOk(s, x, s.next[x]);
      }
    }
  }

  function WithNode(s: Store, kind: NodeKind, value: string): Store {
    Store(s.kinds + [kind], s.values + [value], s.first + [NONE], s.next + [NONE])
  }

  lemma {:induction false} WithNodeValid(s: Store, kind: NodeKind, value: string)
    requires Valid(s)
    ensures var t := WithNode(s, kind, value); Valid(t) && Prefix(s, t) && Decode(t, s.Size()) == Tree(kind, value, [])
  {
    var t := WithNode(s, kind, value);
    forall id | t.Has(id) ensures LinkOk(t, id, t.first[id]) && LinkOk(t, id, t.next[id]) {
      if s.Has(id) {
        assert LinkOk(s, id, s.first[id]) && LinkOk(s, id, s.next[id]);
      }
    }
    forall x, y | t.Has(x) && t.Has(y) && t.first[x] != NONE ensures t.first[x] != t.next[y] {
      assert s.Has(x);
    }
  }

  // ---------- linking a child behind the last one ----------

  function SetFirst(s: Store, id: nat, c: int): Store
    requires id < |s.first|
  {
    s.(first := s.first[id := c])
  }

  function SetNext(s: Store, id: nat, c: int): Store
    requires id < |s.next|
  {
    s.(next := s.next[id := c])
  }

  predicate IsLast(s: Store, parent: int, prev: int)
    requires Shape(s) && s.Has(parent)
  {
    var ids := KidIds(s, parent);
    if prev == NONE then ids == [] else ids != [] && ids[|ids| - 1] == prev
  }

  /** `child` becomes the last child of `parent`, whose last child is `prev`. */
  function Link(s: Store, parent: int, prev: int, child: int): Store
    requires Shape(s) && s.Has(parent) && LinkIn(s, prev)
  {
    if prev == NONE then SetFirst(s, parent, child) else SetNext(s, prev, child)
  }

  /** What may be linked: a node without links to or from siblings, with a larger id than
      its new neighbours. */
  ghost predicate Linkable(s: Store, parent: int, prev: int, child: int) {
    Valid(s) && s.Has(parent) && LinkIn(s, prev) && s.Has(child) && IsLast(s, parent, prev) &&
    parent < child && prev < child && Shape(s) && s.next[child] == NONE && Unlinked(s, child)
  }

  lemma {:induction false} LastHasNoNext(s: Store, c: int)
    requires Shape(s) && s.Has(c)
    ensures var ids := Chain(s, c); ids != [] && s.next[ids[|ids| - 1]] == NONE
    decreases Rank(s, c)
  {
    assert LinkOk(s, c, s.next[c]);
    if s.next[c] != NONE {
      LastHasNoNext(s, s.next[c]);
    }
  }

  lemma {:induction false} LastIsFree(s: Store, parent: int, prev: int)
    requires Shape(s) && s.Has(parent) && LinkIn(s, prev) && IsLast(s, parent, prev)
    ensures if prev == NONE then s.first[parent] == NONE else s.next[prev] == NONE && parent < prev
  {
    assert LinkOk(s, parent, s.first[parent]);
    if prev != NONE {
      LastHasNoNext(s, s.first[parent]);
    }
  }

  lemma {:induction false} LinkShape(s: Store, parent: int, prev: int, child: int)
    requires Linkable(s, parent, prev, child)
    ensures Shape(Link(s, parent, prev, child))
  {
    hide IsLast, OnePredecessor, Unlinked;
    var t := Link(s, parent, prev, child);
    forall id | t.Has(id) ensures LinkOk(t, id, t.first[id]) && LinkOk(t, id, t.next[id]) {
      assert LinkOk(s, id, s.first[id]) && LinkOk(s, id, s.next[id]);
    }
  }

  lemma {:induction false} LinkValid(s: Store, parent: int, prev: int, child: int)
    requires Linkable(s, parent, prev, child)
    ensures Valid(Link(s, parent, prev, child))
  {
    LinkShape(s, parent, prev, child);
    hide IsLast, LinkOk, Shape;
    LastIsFree(s, parent, prev);
  }

  /** Every member of a chain is its start or follows another member. */
  lemma {:induction false} ChainStep(s: Store, c: int, e: int) returns (y: int)
    requires Shape(s) && LinkIn(s, c) && e in Chain(s, c) && e != c
    ensures y in Chain(s, c) && s.Has(y) && s.next[y] == e && y < e
    decreases Rank(s, c)
  {
    assert LinkOk(s, c, s.next[c]);
    if s.next[c] == e {
      y := c;
    } else {
      y := ChainStep(s, s.next[c], e);
    }
  }

  /** A node is a child of one parent only. */
  lemma {:induction false} OneParent(s: Store, x: int, p: int, e: int)
    requires Valid(s) && s.Has(x) && s.Has(p) && e in KidIds(s, x) && e in KidIds(s, p)
    ensures x == p
    decreases e
  {
    hide Chain;
    assert LinkOk(s, x, s.first[x]) && LinkOk(s, p, s.first[p]);
    if e != s.first[x] && e != s.first[p] {
      var y := ChainStep(s, s.first[x], e);
      var z := ChainStep(s, s.first[p], e);
      OneParent(s, x, p, y);
    } else if e != s.first[x] {
      var y := ChainStep(s, s.first[x], e);
    } else if e != s.first[p] {
      var z := ChainStep(s, s.first[p], e);
    }
  }

  /** Linking under `parent` changes no tree that does not contain `parent`. */
  lemma {:induction false} LinkKeeps(s: Store, parent: int, prev: int, child: int, x: int)
    requires Linkable(s, parent, prev, child) && s.Has(x) && parent !in Under(s, x)
    ensures Valid(Link(s, parent, prev, child))
    ensures var t := Link(s, parent, prev, child); Decode(t, x) == Decode(s, x) && Under(t, x) == Under(s, x)
    decreases Rank(s, x), 0
  {
    hide OnePredecessor, Unlinked, Chain, DecodeChain, UnderChain;
    LinkValid(s, parent, prev, child);
    assert LinkOk(s, x, s.first[x]);
    if prev in KidIds(s, x) {
      OneParent(s, x, parent, prev);
    }
    LinkKeepsChain(s, parent, prev, child, s.first[x]);
  }

  lemma {:induction false} LinkKeepsChain(s: Store, parent: int, prev: int, child: int, c: int)
    requires Linkable(s, parent, prev, child) && LinkIn(s, c)
    requires prev !in Chain(s, c) && parent !in UnderChain(s, c)
    ensures Valid(Link(s, parent, prev, child))
    ensures var t := Link(s, parent, prev, child);
            DecodeChain(t, c) == DecodeChain(s, c) && UnderChain(t, c) == UnderChain(s, c) && Chain(t, c) == Chain(s, c)
    decreases Rank(s, c), 1
  {
    hide OnePredecessor, Unlinked, IsLast, Decode;
    LinkValid(s, parent, prev, child);
    if c != NONE {
      assert LinkOk(s, c, s.next[c]);
      LinkKeeps(s, parent, prev, child, c);
      LinkKeepsChain(s, parent, prev, child, s.next[c]);
    }
  }

  lemma {:induction false} LinkAppendsChain(s: Store, parent: int, prev: int, child: int, c: int)
    requires Linkable(s, parent, prev, child) && s.Has(c) && parent < c && prev != NONE
    requires var ids := Chain(s, c); ids != [] && ids[|ids| - 1] == prev
    ensures Valid(Link(s, parent, prev, child))
    ensures var t := Link(s, parent, prev, child);
            DecodeChain(t, c) == DecodeChain(s, c) + [Decode(s, child)] && Chain(t, c) == Chain(s, c) + [child]
    decreases Rank(s, c)
  {
    hide OnePredecessor, Unlinked, IsLast, Decode;
    LinkValid(s, parent, prev, child);
    LinkKeeps(s, parent, prev, child, c);
    LinkKeeps(s, parent, prev, child, child);
    assert LinkOk(s, c, s.next[c]);
    var t := Link(s, parent, prev, child);
    if s.next[c] == NONE {
      assert c == prev;
      ChainOfOne(t, child);
    } else {
      assert Chain(s, c)[1..] == Chain(s, s.next[c]);
      LinkAppendsChain(s, parent, prev, child, s.next[c]);
      PrevIsAhead(s, s.next[c]);
    }
  }

  lemma {:induction false} ChainOfOne(t: Store, c: int)
    requires Shape(t) && t.Has(c) && t.next[c] == NONE
    ensures Chain(t, c) == [c] && DecodeChain(t, c) == [Decode(t, c)]
  {
  }

  lemma {:induction false} PrevIsAhead(s: Store, c: int)
    requires Shape(s) && s.Has(c)
    ensures var ids := Chain(s, c); ids != [] && c <= ids[|ids| - 1]
  {
  }

  /** Linking under `parent` adds one child at the end and changes no other. */
  lemma {:induction false} LinkAppends(s: Store, parent: int, prev: int, child: int)
    requires Linkable(s, parent, prev, child)
    ensures Valid(Link(s, parent, prev, child))
    ensures var t := Link(s, parent, prev, child);
            Kids(t, parent) == Kids(s, parent) + [Decode(s, child)] && IsLast(t, parent, child) &&
            t.kinds == s.kinds && t.values == s.values
  {
    hide OnePredecessor, Unlinked;
    LinkValid(s, parent, prev, child);
    var t := Link(s, parent, prev, child);
    assert LinkOk(s, parent, s.first[parent]);
    LinkKeeps(s, parent, prev, child, child);
    if prev == NONE {
      ChainOfOne(t, child);
    } else {
      LinkAppendsChain(s, parent, prev, child, s.first[parent]);
    }
  }

  // ---------- the arena object ----------

  /** Getters answer 0, an atom or an empty text for an id that is not there, and setters
      then do nothing, like the growable arrays they are made of. */
  class Arena {
    var kinds: seq<NodeKind>
    var values: seq<string>
    var first: seq<int>
    var next: seq<int>

    function Now(): Store
      reads this
    {
      Store(kinds, values, first, next)
    }

    /** arena-new */
    constructor ()
      ensures Now() == Store([], [], [], []) && Valid(Now())
    {
      kinds, values, first, next := [], [], [], [];
    }

    /** arena-add-node */
    method AddNode(kind: NodeKind, value: string) returns (id: int)
      modifies this
      ensures id == old(Now().Size()) && Now() == WithNode(old(Now()), kind, value)
    {
      id := |kinds|;
      kinds := kinds + [kind];
      values := values + [value];
      first := first + [NONE];
      next := next + [NONE];
    }

    /** arena-kind */
    function Kind(id: int): NodeKind
      reads this
    {
      if 0 <= id < |kinds| then kinds[id] else AtomKind
    }

    /** arena-value */
    function Value(id: int): string
      reads this
    {
      if 0 <= id < |values| then values[id] else ""
    }

    /** arena-first-child */
    function FirstChild(id: int): int
      reads this
    {
      if 0 <= id < |first| then first[id] else 0
    }

    /** arena-next-sibling */
    function NextSibling(id: int): int
      reads this
    {
      if 0 <= id < |next| then next[id] else 0
    }

    /** arena-set-first-child */
    method SetFirstChild(id: int, child: int)
      modifies this`first
      ensures first == if 0 <= id < |old(first)| then old(first)[id := child] else old(first)
    {
      if 0 <= id < |first| {
        first := first[id := child];
      }
    }

    /** arena-set-next-sibling */
    method SetNextSibling(id: int, sibling: int)
      modifies this`next
      ensures next == if 0 <= id < |old(next)| then old(next)[id := sibling] else old(next)
    {
      if 0 <= id < |next| {
        next := next[id := sibling];
      }
    }

    /** The branch that copy-subtree and parse-expr-at end each round with. */
    method LinkBehind(parent: int, prev: int, child: int)
      requires Linkable(Now(), parent, prev, child)
      modifies this
      ensures Now() == Link(old(Now()), parent, prev, child)
    {
      if prev == NONE {
        SetFirstChild(parent, child);
      } else {
        SetNextSibling(prev, child);
      }
    }
  }

  /** The last child of a node, or NONE. */
  function LastId(s: Store, parent: int): (prev: int)
    requires Shape(s) && s.Has(parent)
    ensures LinkIn(s, prev) && IsLast(s, parent, prev)
  {
    var ids := KidIds(s, parent);
    if ids == [] then NONE else ids[|ids| - 1]
  }

  /** append-child: the child goes behind the last one, found by walking the siblings. */
  method AppendChild(a: Arena, parent: int, child: int)
    requires Valid(a.Now()) && a.Now().Has(parent) && Linkable(a.Now(), parent, LastId(a.Now(), parent), child)
    modifies a
    ensures a.Now() == Link(old(a.Now()), parent, LastId(old(a.Now()), parent), child)
  {
    ghost var s := a.Now();
    var head := a.FirstChild(parent);
    assert LinkOk(s, parent, s.first[parent]);
    if head == NONE {
      a.SetFirstChild(parent, child);
    } else {
      var cur := head;
      assert Chain(s, head) == KidIds(s, parent);
      while a.NextSibling(cur) != NONE
        invariant a.Now() == s && s.Has(cur)
        invariant LastOf(Chain(s, cur)) == LastId(s, parent)
        decreases Rank(s, cur)
      {
        assert LinkOk(s, cur, s.next[cur]);
        assert Chain(s, cur)[1..] == Chain(s, s.next[cur]);
        cur := a.NextSibling(cur);
      }
      assert Chain(s, cur) == [cur];
      a.SetNextSibling(cur, child);
    }
  }

  function LastOf(ids: seq<int>): int {
    if ids == [] then NONE else ids[|ids| - 1]
  }

  lemma {:induction false} PrefixKids(s: Store, t: Store, id: int)
    requires Shape(s) && Shape(t) && Prefix(s, t) && s.Has(id)
    ensures Kids(t, id) == Kids(s, id) && KidIds(t, id) == KidIds(s, id)
  {
    assert LinkOk(s, id, s.first[id]);
    PrefixDecodeChain(s, t, s.first[id]);
  }

  /** A list under construction: a root added behind `old`, the trees `done` below it, `prev`
      its last child. */
  ghost predicate Building(before: Store, s: Store, list: int, kind: NodeKind, value: string, done: seq<Tree>,
          prev: int)
  {
    Valid(before) && Valid(s) && Prefix(before, s) && list == before.Size() && s.Has(list) &&
    s.kinds[list] == kind && s.values[list] == value && s.next[list] == NONE &&
    LinkIn(s, prev) && IsLast(s, list, prev) && Kids(s, list) == done
  }

  lemma {:induction false} BuildStart(before: Store, kind: NodeKind, value: string)
    requires Valid(before)
    ensures Building(before, WithNode(before, kind, value), before.Size(), kind, value, [], NONE)
  {
    WithNodeValid(before, kind, value);
  }

  /** One more tree, added behind the list and then linked, extends it. */
  lemma {:induction false} BuildStep(before: Store, s: Store, t: Store, list: int, kind: NodeKind, value: string,
          done: seq<Tree>, prev: int, child: int)
    requires Building(before, s, list, kind, value, done, prev)
    requires Valid(t) && Prefix(s, t) && child == s.Size() && t.Has(child) && t.next[child] == NONE
    ensures Linkable(t, list, prev, child)
    ensures Building(before, Link(t, list, prev, child), list, kind, value, done + [Decode(t, child)], child)
  {
    hide OnePredecessor;
    FirstAddedIsRoot(s, t);
    PrefixKids(s, t, list);
    LastIsFree(s, list, prev);
    LinkAppends(t, list, prev, child);
    var u := Link(t, list, prev, child);
    assert before.first <= u.first && before.next <= u.next;
  }

  lemma {:induction false} BuildEnd(before: Store, s: Store, list: int, kind: NodeKind, value: string,
          done: seq<Tree>, prev: int)
    requires Building(before, s, list, kind, value, done, prev)
    ensures Added(before, s, list, Tree(kind, value, done))
  {
    hide OnePredecessor, Chain;
  }

  /** `t` is `s` with one more tree behind it, whose root is `id`. */
  ghost predicate Added(s: Store, t: Store, id: int, tree: Tree) {
    Valid(s) && Valid(t) && Prefix(s, t) && id == s.Size() && t.Has(id) && t.next[id] == NONE && Decode(t, id) == tree
  }

  /** `BuildStep` for a tree that was just added. */
  lemma {:induction false} BuildMore(before: Store, s: Store, t: Store, list: int, kind: NodeKind, value: string,
          done: seq<Tree>, prev: int, child: int, tree: Tree)
    requires Building(before, s, list, kind, value, done, prev) && Added(s, t, child, tree)
    ensures Linkable(t, list, prev, child)
    ensures Building(before, Link(t, list, prev, child), list, kind, value, done + [tree], child)
  {
    hide Building, Linkable, Link;
    BuildStep(before, s, t, list, kind, value, done, prev, child);
  }

  /** The next child of a list that is being copied. */
  lemma {:induction false} ChainHead(s: Store, c: int)
    requires Shape(s) && s.Has(c)
    ensures LinkIn(s, s.next[c]) && (s.next[c] == NONE || c < s.next[c])
    ensures DecodeChain(s, c) == [Decode(s, c)] + DecodeChain(s, s.next[c])
  {
    assert LinkOk(s, c, s.next[c]);
  }

  /** copy-subtree: the copy is the same tree, behind everything that was there. */
  method CopySubtree(src: Arena, dst: Arena, node: int) returns (id: int)
    requires src != dst && Valid(src.Now()) && Valid(dst.Now()) && src.Now().Has(node)
    modifies dst
    ensures Added(old(dst.Now()), dst.Now(), id, Decode(src.Now(), node))
    decreases Rank(src.Now(), node)
  {
    hide Shape, OnePredecessor, Building, Decode, DecodeChain, Prefix, Linkable, Link, Added;
    ghost var s := src.Now();
    ghost var before := dst.Now();
    var kind, value := src.Kind(node), src.Value(node);
    BuildStart(before, kind, value);
    id := dst.AddNode(kind, value);
    DecodeKids(s, node);
    var child := src.FirstChild(node);
    var prev := NONE;
    ghost var done: seq<Tree> := [];
    assert done + DecodeChain(s, child) == DecodeChain(s, child);
    while child != NONE
      invariant src.Now() == s && LinkIn(s, child) && (child == NONE || node < child)
      invariant Building(before, dst.Now(), id, kind, value, done, prev)
      invariant Decode(s, node) == Tree(kind, value, done + DecodeChain(s, child))
      decreases Rank(s, child)
    {
      ghost var d := dst.Now();
      BuildingValid(before, d, id, kind, value, done, prev);
      var copied := CopySubtree(src, dst, child);
      BuildMore(before, d, dst.Now(), id, kind, value, done, prev, copied, Decode(s, child));
      dst.LinkBehind(id, prev, copied);
      ChainHead(s, child);
      Cat(done, [Decode(s, child)], DecodeChain(s, s.next[child]));
      done := done + [Decode(s, child)];
      prev := copied;
      child := src.NextSibling(child);
    }
    assert done + DecodeChain(s, NONE) == done by { ChainOfNone(s); }
    BuildEnd(before, dst.Now(), id, kind, value, done, prev);
  }

  lemma {:induction false} ChainOfNone(s: Store)
    requires Shape(s)
    ensures DecodeChain(s, NONE) == []
  {
  }

  lemma {:induction false} DecodeKids(s: Store, id: int)
    requires Shape(s) && s.Has(id)
    ensures |s.kinds| == |s.values| == |s.first| == |s.next|
    ensures LinkIn(s, s.first[id]) && (s.first[id] == NONE || id < s.first[id])
    ensures Decode(s, id) == Tree(s.kinds[id], s.values[id], DecodeChain(s, s.first[id]))
  {
    assert LinkOk(s, id, s.first[id]);
  }

  lemma {:induction false} BuildingValid(before: Store, s: Store, list: int, kind: NodeKind, value: string,
          done: seq<Tree>, prev: int)
    requires Building(before, s, list, kind, value, done, prev)
    ensures Valid(s)
  {
  }

  lemma {:induction false} Cat(a: seq<Tree>, b: seq<Tree>, c: seq<Tree>)
    ensures a + (b + c) == (a + b) + c
  {
  }
}
