/** Positions in a binary trie, tables of what the nodes there store, and the tries such
    tables describe. */
module Paths {
  import opened Tries

  /** A position: the root, or the left (`false`) or right (`true`) child of a position. */
  datatype Path = Root | Step(up: Path, bit: bool)

  function Depth(p: Path): nat {
    if p.Root? then 0 else 1 + Depth(p.up)
  }

  /** `q` is `p` or lies below it. */
  predicate Under(q: Path, p: Path) {
    q == p || (q.Step? && Under(q.up, p))
  }

  lemma {:induction false} UnderTrans(r: Path, q: Path, p: Path)
    requires Under(r, q) && Under(q, p)
    ensures Under(r, p)
  {
    if r != q { UnderTrans(r.up, q, p); }
  }

  lemma {:induction false} UnderDepth(q: Path, p: Path)
    requires Under(q, p)
    ensures Depth(p) <= Depth(q)
  {
    if q != p { UnderDepth(q.up, p); }
  }

  /** What lies below one child lies below its parent, and not below the other child. */
  lemma {:induction false} UnderChild(q: Path, p: Path, b: bool)
    requires Under(q, Step(p, b))
    ensures Under(q, p) && q != p && !Under(q, Step(p, !b))
  {
    if q != Step(p, b) {
      UnderChild(q.up, p, b);
    } else if Under(p, Step(p, !b)) {
      UnderDepth(p, Step(p, !b));
    }
    if q == p { UnderDepth(p, Step(p, b)); }
  }

  /** The position reached by the first `n` bits of an address. */
  function AddrPath(addr: seq<bool>, n: nat): Path
    requires n <= |addr|
  {
    if n == 0 then Root else Step(AddrPath(addr, n - 1), addr[n - 1])
  }

  // ------------------------------------------------------------ tables of next-hop sets

  type Table = map<Path, set<Nexthop>>

  /** The part of a table at and below `p`, down to depth `h`, as a trie. */
  ghost function TreeOf(m: Table, p: Path, h: nat): Trie<set<Nexthop>>
    decreases h + 1 - Depth(p)
  {
    if p !in m || Depth(p) > h then Nil
    else Node(m[p], TreeOf(m, Step(p, false), h), TreeOf(m, Step(p, true), h))
  }

  /** Two tables store the same at and below `p`. */
  ghost predicate SameBelow(m: Table, n: Table, p: Path) {
    forall q | Under(q, p) :: (q in m <==> q in n) && (q in m ==> m[q] == n[q])
  }

  lemma SameBelowChild(m: Table, n: Table, p: Path, b: bool)
    requires SameBelow(m, n, p)
    ensures SameBelow(m, n, Step(p, b))
  {
    forall q | Under(q, Step(p, b))
      ensures (q in m <==> q in n) && (q in m ==> m[q] == n[q])
    {
      UnderChild(q, p, b);
    }
  }

  lemma {:induction false} TreeOfSame(m: Table, n: Table, p: Path, h: nat)
    requires SameBelow(m, n, p)
    ensures TreeOf(m, p, h) == TreeOf(n, p, h)
    decreases h + 1 - Depth(p)
  {
    assert Under(p, p);
    if Depth(p) <= h {
      SameBelowChild(m, n, p, false);
      SameBelowChild(m, n, p, true);
      TreeOfSame(m, n, Step(p, false), h);
      TreeOfSame(m, n, Step(p, true), h);
    }
  }

  lemma {:induction false} TreeOfHeight(m: Table, p: Path, h: nat)
    requires Depth(p) <= h + 1
    ensures Height(TreeOf(m, p, h)) <= h + 1 - Depth(p)
    decreases h + 1 - Depth(p)
  {
    if Depth(p) <= h {
      TreeOfHeight(m, Step(p, false), h);
      TreeOfHeight(m, Step(p, true), h);
    }
  }

  // ------------------------------------------------------------ singletons

  ghost predicate Single(s: set<Nexthop>) {
    exists x :: s == {x}
  }

  ghost function The(s: set<Nexthop>): (x: Nexthop)
    requires Single(s)
    ensures s == {x}
  {
    var x :| s == {x};
    x
  }

  ghost predicate AllSingle(t: Trie<set<Nexthop>>) {
    t.Nil? || (Single(t.val) && AllSingle(t.left) && AllSingle(t.right))
  }

  /** A trie of singletons, read as a trie of next hops. */
  ghost function Label(t: Trie<set<Nexthop>>): Trie<Nexthop>
    requires AllSingle(t)
  {
    match t
    case Nil => Nil
    case Node(s, l, r) => Node(The(s), Label(l), Label(r))
  }

  function Lift(t: Trie<Nexthop>): Trie<set<Nexthop>> {
    match t
    case Nil => Nil
    case Node(x, l, r) => Node({x}, Lift(l), Lift(r))
  }

  /** The number of positions that carry a next hop. */
  function CountSets(t: Trie<set<Nexthop>>): nat {
    match t
    case Nil => 0
    case Node(s, l, r) => (if s == {None} then 0 else 1) + CountSets(l) + CountSets(r)
  }

  lemma {:induction false} LabelLift(t: Trie<Nexthop>)
    ensures AllSingle(Lift(t)) && Label(Lift(t)) == t
    ensures Height(Lift(t)) == Height(t) && CountSets(Lift(t)) == Count(t)
  {
    if t.Node? {
      LabelLift(t.left);
      LabelLift(t.right);
      assert Lift(t).val == {t.val};
    }
  }

  lemma {:induction false} LiftLabel(t: Trie<set<Nexthop>>)
    requires AllSingle(t)
    ensures Lift(Label(t)) == t
    ensures Height(Label(t)) == Height(t) && Count(Label(t)) == CountSets(t)
  {
    if t.Node? {
      LiftLabel(t.left);
      LiftLabel(t.right);
    }
  }

  // ------------------------------------------------------------ inheritance

  /** The positions strictly above `p` all carry exactly one next hop (or `None`). */
  ghost predicate Settled(m: Table, p: Path) {
    p.Root? || (p.up in m && Single(m[p.up]) && Settled(m, p.up))
  }

  /** The next hop of the nearest ancestor that has one. */
  ghost function Inherited(m: Table, p: Path): Nexthop
    requires Settled(m, p)
  {
    if p.Root? then None else Effective(The(m[p.up]), Inherited(m, p.up))
  }

  /** Two tables store the same everywhere except at and below `p`. */
  ghost predicate SameOutside(m: Table, n: Table, p: Path) {
    forall q | !Under(q, p) :: (q in m <==> q in n) && (q in m ==> m[q] == n[q])
  }

  /** Nothing strictly above `q` is at or below `q`, so what changes there is not seen. */
  lemma {:induction false} InheritedKept(m: Table, n: Table, q: Path, p: Path)
    requires Settled(m, q) && Under(p, q) && SameOutside(m, n, p)
    ensures Settled(n, q) && Inherited(n, q) == Inherited(m, q)
  {
    if q.Step? {
      UnderTrans(p, q, q.up);
      if Under(q.up, p) {
        UnderTrans(q.up, p, q);
        UnderDepth(q.up, q);
      }
      InheritedKept(m, n, q.up, p);
    }
  }

  /** A change at or below one child leaves the parent and the other child alone. */
  lemma OtherChildKept(m: Table, n: Table, p: Path, b: bool, h: nat)
    requires SameOutside(m, n, Step(p, b))
    ensures (p in m <==> p in n) && (p in m ==> n[p] == m[p]) && SameOutside(m, n, p)
    ensures TreeOf(n, Step(p, !b), h) == TreeOf(m, Step(p, !b), h)
  {
    if Under(p, Step(p, b)) { UnderDepth(p, Step(p, b)); }
    forall q ensures Under(q, Step(p, b)) ==> Under(q, p) {
      if Under(q, Step(p, b)) { UnderChild(q, p, b); }
    }
    forall q | Under(q, Step(p, !b)) ensures !Under(q, Step(p, b)) {
      UnderChild(q, p, !b);
    }
    TreeOfSame(m, n, Step(p, !b), h);
  }

  lemma SiblingKept(m: Table, n: Table, p: Path, b: bool, h: nat)
    requires p in m && Single(m[p]) && Settled(m, p) && SameOutside(m, n, Step(p, b))
    ensures p in n && n[p] == m[p] && SameOutside(m, n, p)
    ensures TreeOf(n, Step(p, !b), h) == TreeOf(m, Step(p, !b), h)
    ensures Settled(n, Step(p, !b)) && Inherited(n, Step(p, !b)) == Inherited(m, Step(p, !b))
  {
    OtherChildKept(m, n, p, b, h);
    InheritedKept(m, n, p, p);
  }

  /** Storing something at a node leaves the subtries below it alone. */
  lemma BelowUpdate(m: Table, p: Path, s: set<Nexthop>, b: bool, h: nat)
    ensures TreeOf(m[p := s], Step(p, b), h) == TreeOf(m, Step(p, b), h)
  {
    forall q | Under(q, Step(p, b)) ensures q != p { UnderChild(q, p, b); }
    TreeOfSame(m, m[p := s], Step(p, b), h);
  }

  lemma SameOutsideTrans(m: Table, n: Table, o: Table, p: Path)
    requires SameOutside(m, n, p) && SameOutside(n, o, p)
    ensures SameOutside(m, o, p)
  {
    forall q | !Under(q, p)
      ensures (q in m <==> q in o) && (q in m ==> m[q] == o[q])
    {
      assert q in m <==> q in n;
    }
  }
}
