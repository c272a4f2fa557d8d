/** The three passes of ORTC as functions on tries, what they keep, and why the result
    is the smallest table there is. */
module Ortc {
  import opened Tries

  // ------------------------------------------------------------ the three passes

  /** Pass one: give every internal node its missing child and push next hops down. */
  function Expand(t: Trie<Nexthop>, inherited: Nexthop): (e: Trie<Nexthop>)
    requires t.Node?
    decreases Height(t), 0
  {
    var here := Effective(t.val, inherited);
    if t.left.Nil? && t.right.Nil? then Node(here, Nil, Nil)
    else Node(here, ExpandChild(t.left, here), ExpandChild(t.right, here))
  }

  function ExpandChild(t: Trie<Nexthop>, inherited: Nexthop): Trie<Nexthop>
    decreases Height(t), 1
  {
    if t.Nil? then Node(inherited, Nil, Nil) else Expand(t, inherited)
  }

  /** The operation of pass two: the intersection, or the union when that is empty. */
  function Sharp(a: set<Nexthop>, b: set<Nexthop>): set<Nexthop> {
    if a * b == {} then a + b else a * b
  }

  function Prevalent(t: Trie<Nexthop>): Trie<set<Nexthop>>
    requires Full(t)
  {
    if t.left.Nil? then Node({t.val}, Nil, Nil)
    else
      var l, r := Prevalent(t.left), Prevalent(t.right);
      Node(Sharp(l.val, r.val), l, r)
  }

  predicate Below(a: Nexthop, b: Nexthop) {
    a.None? || (b.Some? && a.value <= b.value)
  }

  /** The first element of the sorted set; `None` when there is none. */
  function Least(s: set<Nexthop>): (x: Nexthop)
    ensures s != {} ==> x in s && forall y | y in s :: Below(x, y)
    ensures s == {} ==> x == None
  {
    if s == {} then None
    else
      LeastExists(s);
      var x :| x in s && forall y | y in s :: Below(x, y);
      x
  }

  lemma LeastExists(s: set<Nexthop>)
    requires s != {}
    ensures exists x :: x in s && forall y | y in s :: Below(x, y)
  {
    var z :| z in s;
    if s != {z} {
      LeastExists(s - {z});
      var x :| x in s - {z} && forall y | y in s - {z} :: Below(x, y);
      if Below(z, x) {
        assert forall y | y in s :: y == z || y in s - {z};
        assert forall y | y in s :: Below(z, y);
      } else {
        assert forall y | y in s :: Below(x, y);
      }
    }
  }

  /** Pass three: keep a next hop only where the inherited one will not do. */
  function ChooseNode(s: set<Nexthop>, inherited: Nexthop, isRoot: bool): Nexthop {
    if !isRoot && inherited in s then None else Least(s)
  }

  function Choose(t: Trie<set<Nexthop>>, inherited: Nexthop, isRoot: bool): Trie<Nexthop> {
    match t
    case Nil => Nil
    case Node(s, l, r) =>
      var own := ChooseNode(s, inherited, isRoot);
      var here := Effective(own, inherited);
      Node(own, Choose(l, here, false), Choose(r, here, false))
  }

  /** A trie the source can build: its root has a next hop, unless there are no rules. */
  predicate Rooted(t: Trie<Nexthop>) {
    t.Node? && (t.val.Some? || (t.left.Nil? && t.right.Nil?))
  }

  function Compress(t: Trie<Nexthop>): Trie<Nexthop>
    requires Rooted(t)
  {
    ExpandIsFull(t, None);
    Choose(Prevalent(Expand(t, None)), None, true)
  }

  // ------------------------------------------------------------ pass one

  lemma {:induction false} ExpandIsFull(t: Trie<Nexthop>, inherited: Nexthop)
    requires t.Node?
    ensures Full(Expand(t, inherited))
    ensures Height(Expand(t, inherited)) == Height(t)
    decreases t
  {
    var here := Effective(t.val, inherited);
    if t.left.Node? { ExpandIsFull(t.left, here); }
    if t.right.Node? { ExpandIsFull(t.right, here); }
  }

  /** Each leaf of the expanded trie holds the answer of the original for its region. */
  lemma {:induction false} ExpandAnswers(t: Trie<Nexthop>, inherited: Nexthop, addr: seq<bool>)
    requires t.Node? && Height(t) <= |addr| + 1
    ensures Full(Expand(t, inherited))
    ensures LeafAt(Expand(t, inherited), addr) == Lookup(t, addr, inherited)
    decreases t
  {
    ExpandIsFull(t, inherited);
    var here := Effective(t.val, inherited);
    if t.left.Node? || t.right.Node? {
      var child := if addr[0] then t.right else t.left;
      if child.Node? { ExpandAnswers(child, here, addr[1..]); }
    }
  }

  // ------------------------------------------------------------ passes two and three

  /** How many entries a full trie needs below an inherited next hop of its own set. */
  function Merges(t: Trie<Nexthop>): nat
    requires Full(t)
  {
    if t.left.Nil? then 0
    else
      Merges(t.left) + Merges(t.right)
      + if Prevalent(t.left).val * Prevalent(t.right).val == {} then 1 else 0
  }

  function Cost(t: Trie<Nexthop>, inherited: Nexthop): nat
    requires Full(t)
  {
    Merges(t) + if inherited in Prevalent(t).val then 0 else 1
  }

  lemma {:induction false} PrevalentNonempty(t: Trie<Nexthop>)
    requires Full(t)
    ensures Prevalent(t).val != {}
    ensures t.left.Nil? ==> Prevalent(t).left.Nil? && Prevalent(t).right.Nil?
  {
    if t.left.Node? { PrevalentNonempty(t.left); PrevalentNonempty(t.right); }
  }

  /** No next hop of the trie is `None`. */
  predicate AllSome(t: Trie<Nexthop>) {
    t.Nil? || (t.val.Some? && AllSome(t.left) && AllSome(t.right))
  }

  lemma {:induction false} PrevalentSome(t: Trie<Nexthop>)
    requires Full(t) && AllSome(t)
    ensures None !in Prevalent(t).val
  {
    if t.left.Node? { PrevalentSome(t.left); PrevalentSome(t.right); }
  }

  lemma {:induction false} ChooseCorrect(t: Trie<Nexthop>, inherited: Nexthop, isRoot: bool, addr: seq<bool>)
    requires Full(t) && AllSome(t) && Height(t) <= |addr| + 1
    ensures Lookup(Choose(Prevalent(t), inherited, isRoot), addr, inherited) == LeafAt(t, addr)
    decreases t
  {
    PrevalentNonempty(t);
    PrevalentSome(t);
    if t.left.Node? {
      var here := Effective(ChooseNode(Prevalent(t).val, inherited, isRoot), inherited);
      ChooseCorrect(if addr[0] then t.right else t.left, here, false, addr[1..]);
    }
  }

  /** Below a next hop of its set, a node costs as much as its halves below the same one. */
  lemma HalvesCost(t: Trie<Nexthop>, x: Nexthop)
    requires Full(t) && t.left.Node? && x in Prevalent(t).val
    ensures Cost(t.left, x) + Cost(t.right, x) == Merges(t) == Cost(t, x)
  {
    var l, r := Prevalent(t.left).val, Prevalent(t.right).val;
    assert x in l * r <==> x in l && x in r;
    assert x in l + r <==> x in l || x in r;
  }

  /** Below any inherited next hop pass three spends exactly the cost. */
  lemma {:induction false} ChooseCost(t: Trie<Nexthop>, inherited: Nexthop)
    requires Full(t) && AllSome(t)
    ensures Count(Choose(Prevalent(t), inherited, false)) == Cost(t, inherited)
  {
    var s := Prevalent(t).val;
    var own := ChooseNode(s, inherited, false);
    PrevalentNonempty(t);
    PrevalentSome(t);
    if t.left.Node? {
      var here := Effective(own, inherited);
      assert here in s;
      HalvesCost(t, here);
      ChooseCost(t.left, here);
      ChooseCost(t.right, here);
    }
  }

  /** At the root, where nothing is inherited, it spends one entry more than is merged below. */
  lemma ChooseRootCost(t: Trie<Nexthop>)
    requires Full(t) && AllSome(t)
    ensures Count(Choose(Prevalent(t), None, true)) == Merges(t) + 1
  {
    var here := Least(Prevalent(t).val);
    PrevalentNonempty(t);
    PrevalentSome(t);
    if t.left.Node? {
      HalvesCost(t, here);
      ChooseCost(t.left, here);
      ChooseCost(t.right, here);
    }
  }

  // ------------------------------------------------------------ lower bound

  /** Below an inherited next hop, `c` answers every `w`-bit address as the full trie does. */
  ghost predicate Agrees(c: Trie<Nexthop>, inherited: Nexthop, t: Trie<Nexthop>, w: nat)
    requires Full(t)
  {
    forall a: seq<bool> | |a| == w :: Lookup(c, a, inherited) == LeafAt(t, a)
  }

  lemma {:induction false} EmptyTable(c: Trie<Nexthop>, a: seq<bool>, inherited: Nexthop)
    requires Count(c) == 0
    ensures Lookup(c, a, inherited) == inherited
    decreases c
  {
    if c.Node? && a != [] { EmptyTable(if a[0] then c.right else c.left, a[1..], inherited); }
  }

  /** A competitor that agrees on a region agrees on both halves of it. */
  lemma AgreesBelow(c: Trie<Nexthop>, inherited: Nexthop, t: Trie<Nexthop>, w: nat)
    requires Full(t) && t.left.Node? && c.Node? && w > 0
    requires Agrees(c, inherited, t, w)
    ensures Agrees(c.left, Effective(c.val, inherited), t.left, w - 1)
    ensures Agrees(c.right, Effective(c.val, inherited), t.right, w - 1)
  {
    forall a: seq<bool> | |a| == w - 1
      ensures Lookup(c.left, a, Effective(c.val, inherited)) == LeafAt(t.left, a)
      ensures Lookup(c.right, a, Effective(c.val, inherited)) == LeafAt(t.right, a)
    {
      var lo, hi := [false] + a, [true] + a;
      assert lo[1..] == a && hi[1..] == a;
      assert Lookup(c, lo, inherited) == LeafAt(t, lo);
      assert Lookup(c, hi, inherited) == LeafAt(t, hi);
    }
  }

  /** A node costs no more than its halves below the same next hop, or below another one that
      an entry of its own sets. */
  lemma HalvesBound(t: Trie<Nexthop>, inherited: Nexthop, own: Nexthop)
    requires Full(t) && t.left.Node?
    ensures var here := Effective(own, inherited);
      Cost(t, inherited) <= Cost(t.left, here) + Cost(t.right, here) + if own == None then 0 else 1
  {
    var l, r, here := Prevalent(t.left).val, Prevalent(t.right).val, Effective(own, inherited);
    assert inherited in l * r <==> inherited in l && inherited in r;
    assert here in l * r <==> here in l && here in r;
  }

  /** The heart of optimality: no table of any shape does with fewer than `Cost` entries. */
  lemma {:induction false} LowerBound(c: Trie<Nexthop>, inherited: Nexthop, t: Trie<Nexthop>, w: nat)
    requires Full(t) && Height(t) <= w + 1
    requires Agrees(c, inherited, t, w)
    ensures Cost(t, inherited) <= Count(c)
    decreases t
  {
    if t.left.Nil? {
      if Count(c) == 0 {
        var a := seq(w, i => false);
        EmptyTable(c, a, inherited);
        assert Lookup(c, a, inherited) == LeafAt(t, a);
      }
    } else if c.Nil? {
      LowerBoundNil(inherited, t, w);
    } else {
      AgreesBelow(c, inherited, t, w);
      LowerBound(c.left, Effective(c.val, inherited), t.left, w - 1);
      LowerBound(c.right, Effective(c.val, inherited), t.right, w - 1);
      HalvesBound(t, inherited, c.val);
    }
  }

  lemma NilIsBlank(inherited: Nexthop, t: Trie<Nexthop>, w: nat)
    requires Full(t) && t.left.Node? && Height(t) <= w + 1 && Agrees(Nil, inherited, t, w)
    ensures Agrees(Node(None, Nil, Nil), inherited, t, w)
  {
    forall a: seq<bool> | |a| == w ensures Lookup(Node(None, Nil, Nil), a, inherited) == LeafAt(t, a) {
      assert Lookup(Nil, a, inherited) == LeafAt(t, a);
    }
  }

  lemma {:induction false} LowerBoundNil(inherited: Nexthop, t: Trie<Nexthop>, w: nat)
    requires Full(t) && Height(t) <= w + 1 && Agrees(Nil, inherited, t, w)
    ensures Cost(t, inherited) == 0
    decreases t
  {
    if t.left.Nil? {
      var a := seq(w, i => false);
      assert Lookup(Nil, a, inherited) == LeafAt(t, a);
    } else {
      NilIsBlank(inherited, t, w);
      AgreesBelow(Node(None, Nil, Nil), inherited, t, w);
      LowerBoundNil(inherited, t.left, w - 1);
      LowerBoundNil(inherited, t.right, w - 1);
    }
  }

  // ------------------------------------------------------------ main results

  lemma {:induction false} ExpandSome(t: Trie<Nexthop>, inherited: Nexthop)
    requires t.Node? && Effective(t.val, inherited).Some?
    ensures AllSome(Expand(t, inherited))
    decreases t
  {
    var here := Effective(t.val, inherited);
    if t.left.Node? { ExpandSome(t.left, here); }
    if t.right.Node? { ExpandSome(t.right, here); }
  }

  lemma {:induction false} ChooseShape(t: Trie<set<Nexthop>>, inherited: Nexthop, isRoot: bool)
    ensures Height(Choose(t, inherited, isRoot)) == Height(t)
    decreases t
  {
    if t.Node? {
      var here := Effective(ChooseNode(t.val, inherited, isRoot), inherited);
      ChooseShape(t.left, here, false);
      ChooseShape(t.right, here, false);
    }
  }

  lemma {:induction false} PrevalentShape(t: Trie<Nexthop>)
    requires Full(t)
    ensures Height(Prevalent(t)) == Height(t)
  {
    if t.left.Node? { PrevalentShape(t.left); PrevalentShape(t.right); }
  }

  /** The result can be compressed again, and is no taller than the input. */
  lemma CompressShape(t: Trie<Nexthop>)
    requires Rooted(t)
    ensures Rooted(Compress(t)) && Height(Compress(t)) == Height(t)
  {
    ExpandIsFull(t, None);
    var e := Expand(t, None);
    PrevalentShape(e);
    PrevalentNonempty(e);
    ChooseShape(Prevalent(e), None, true);
    if t.val.Some? { ExpandSome(t, None); PrevalentSome(e); }
  }

  /** Compression keeps the answer of every address. */
  lemma CompressKeepsAnswers(t: Trie<Nexthop>, w: nat)
    requires Rooted(t) && Height(t) <= w + 1
    ensures SameAnswers(Compress(t), t, w)
  {
    forall a: seq<bool> | |a| == w ensures Lookup(Compress(t), a, None) == Lookup(t, a, None) {
      ExpandAnswers(t, None, a);
      ExpandIsFull(t, None);
      if t.val.Some? {
        ExpandSome(t, None);
        ChooseCorrect(Expand(t, None), None, true, a);
      }
    }
  }

  /** Compression is optimal: a table of any shape with the same answers is no smaller. */
  lemma CompressIsMinimal(t: Trie<Nexthop>, c: Trie<Nexthop>, w: nat)
    requires Rooted(t) && Height(t) <= w + 1
    requires SameAnswers(c, t, w)
    ensures Count(Compress(t)) <= Count(c)
  {
    if t.val.Some? {
      var e := Expand(t, None);
      ExpandIsFull(t, None);
      ExpandSome(t, None);
      PrevalentSome(e);
      ChooseRootCost(e);
      forall a: seq<bool> | |a| == w ensures Lookup(c, a, None) == LeafAt(e, a) {
        ExpandAnswers(t, None, a);
      }
      LowerBound(c, None, e, w);
    }
  }

  /** Compressing a compressed table changes neither its answers nor its size. */
  lemma CompressTwice(t: Trie<Nexthop>, w: nat)
    requires Rooted(t) && Height(t) <= w + 1
    ensures Rooted(Compress(t))
    ensures SameAnswers(Compress(Compress(t)), t, w)
    ensures Count(Compress(Compress(t))) == Count(Compress(t))
  {
    CompressShape(t);
    CompressKeepsAnswers(t, w);
    CompressKeepsAnswers(Compress(t), w);
    CompressIsMinimal(t, Compress(Compress(t)), w);
    CompressIsMinimal(Compress(t), Compress(t), w);
  }

  /** A table for the region of `t` below the next hop `inherited`, of size `n`. */
  ghost predicate IsTable(c: Trie<Nexthop>, inherited: Nexthop, t: Trie<Nexthop>, w: nat, n: nat)
    requires Full(t)
  {
    Agrees(c, inherited, t, w) && Count(c) == n
  }

  /** What a pass-two set means: `x` belongs to it exactly when a smallest table of the
      region exists below `x`; below any next hop, the smallest table has `Cost` entries,
      one more than `Merges` outside the set. */
  lemma PrevalentMeaning(t: Trie<Nexthop>, x: Nexthop, w: nat)
    requires Full(t) && AllSome(t) && Height(t) <= w + 1
    ensures x in Prevalent(t).val <==> exists c :: IsTable(c, x, t, w, Merges(t))
    ensures exists c :: IsTable(c, x, t, w, Cost(t, x))
    ensures forall c, y | Agrees(c, y, t, w) :: Cost(t, y) <= Count(c)
  {
    var best := Choose(Prevalent(t), x, false);
    ChooseCost(t, x);
    forall a: seq<bool> | |a| == w ensures Lookup(best, a, x) == LeafAt(t, a) {
      ChooseCorrect(t, x, false, a);
    }
    assert IsTable(best, x, t, w, Cost(t, x));
    forall c, y | Agrees(c, y, t, w) ensures Cost(t, y) <= Count(c) {
      LowerBound(c, y, t, w);
    }
    if x in Prevalent(t).val {
      assert IsTable(best, x, t, w, Merges(t));
      assert exists c :: IsTable(c, x, t, w, Merges(t));
    } else {
      forall c | Agrees(c, x, t, w) ensures Count(c) != Merges(t) {
        assert Cost(t, x) <= Count(c);
      }
      assert !exists c :: IsTable(c, x, t, w, Merges(t));
    }
  }
}
