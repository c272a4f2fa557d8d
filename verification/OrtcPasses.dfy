/** The three passes of ORTC as the source runs them: on the nodes in the heap, in place. */
module OrtcPasses {
  import opened Tries
  import opened Paths
  import opened Ortc
  import opened BinaryTries

  /** Nodes stay where they are. */
  ghost predicate Kept(m: map<Path, BinaryTrieNode>, n: map<Path, BinaryTrieNode>) {
    forall p | p in m :: p in n && n[p] == m[p]
  }

  // ------------------------------------------------------------ pass one

  /** The table once a node has both children or none. */
  function Filled(m: Table, p: Path): Table {
    if Step(p, false) in m && Step(p, true) !in m then m[Step(p, true) := {None}]
    else if Step(p, false) !in m && Step(p, true) in m then m[Step(p, false) := {None}]
    else m
  }

  /** The first half of pass one at a node: give it its missing child. */
  method FillNode(node: BinaryTrieNode, bT: BinaryTrie)
    requires bT.Valid() && bT.Owns(node)
    modifies bT`nodes, bT`repr, bT`table, node`lchild, node`rchild
    ensures bT.Valid() && Kept(old(bT.nodes), bT.nodes)
    ensures forall n | n in bT.repr :: n in old(bT.repr) || fresh(n)
    ensures bT.table == Filled(old(bT.table), node.path)
  {
    bT.ChildrenOf(node);
    if node.lchild == null && node.rchild != null {
      var newNode := bT.AddLeftChild(node, None);
    } else if node.lchild != null && node.rchild == null {
      var newNode := bT.AddRightChild(node, None);
    }
  }

  /** What a node passes on in pass one: its own next hop or the inherited one. */
  ghost function Pushed(m: Table, p: Path): Nexthop
    requires p in m && Single(m[p]) && Settled(m, p)
  {
    Effective(The(m[p]), Inherited(m, p))
  }

  /** The second half: a node without a next hop takes the inherited one. */
  method PushNode(node: BinaryTrieNode, bT: BinaryTrie)
    requires bT.Valid() && bT.Owns(node)
    requires Single(bT.table[node.path]) && Settled(bT.table, node.path)
    modifies bT`table, node`inheritedNexthop, node`nexthopSet
    ensures bT.Valid()
    ensures bT.table == old(bT.table[node.path := {Pushed(bT.table, node.path)}])
  {
    if node.IsNextHopNone() {
      var inherited := bT.GetInherited(node);
      bT.SetInherited(node, inherited);
    }
  }

  /** The table after both halves. */
  ghost function Spread(m: Table, p: Path): Table
    requires p in m && Single(m[p]) && Settled(m, p)
  {
    Filled(m, p)[p := {Pushed(m, p)}]
  }

  lemma FilledKeeps(m: Table, p: Path)
    requires p in m && Single(m[p]) && Settled(m, p)
    ensures var f := Filled(m, p);
      p in f && f[p] == m[p] && Settled(f, p) && Inherited(f, p) == Inherited(m, p) && SameOutside(m, f, p)
  {
    InheritedKept(m, Filled(m, p), p, p);
  }

  /** No position in a table has one above it that is missing. */
  ghost predicate Closed(m: Table) {
    forall p, b :: Step(p, b) in m ==> p in m
  }

  lemma SpreadParts(m: Table, p: Path, b: bool, h: nat)
    requires p in m && Single(m[p]) && Settled(m, p) && Closed(m) && Depth(p) < h
    requires Step(p, false) in m || Step(p, true) in m
    ensures var s := Spread(m, p); var c := Step(p, b);
      && SameOutside(m, s, p)
      && c in s && Settled(s, c) && Inherited(s, c) == Pushed(m, p)
      && TreeOf(s, c, h) == if c in m then TreeOf(m, c, h) else Node({None}, Nil, Nil)
  {
    var s, c := Spread(m, p), Step(p, b);
    FilledKeeps(m, p);
    InheritedKept(m, s, p, p);
    if c in m {
      forall q | Under(q, c) ensures (q in m <==> q in s) && (q in m ==> m[q] == s[q]) {
        UnderChild(q, p, b);
        assert Under(Step(p, !b), Step(p, !b));
      }
      TreeOfSame(m, s, c, h);
    } else {
      assert Step(c, false) !in m && Step(c, true) !in m;
      assert TreeOf(s, Step(c, false), h) == Nil && TreeOf(s, Step(c, true), h) == Nil;
    }
  }

  /** Pass one turned the subtrie at `p` into its expansion and touched nothing else. */
  ghost predicate Expanded(m: Table, n: Table, p: Path, h: nat)
    requires p in m && Depth(p) <= h && Settled(m, p) && AllSingle(TreeOf(m, p, h))
  {
    SameOutside(m, n, p) && TreeOf(n, p, h) == Lift(Expand(Label(TreeOf(m, p, h)), Inherited(m, p)))
  }

  lemma ExpandLeaf(m: Table, p: Path, h: nat)
    requires ReadyAt(m, p, h) && Single(m[p])
    requires Step(p, false) !in m && Step(p, true) !in m
    ensures Expanded(m, Spread(m, p), p, h)
  {
    var s := Spread(m, p);
    assert TreeOf(s, Step(p, false), h) == Nil && TreeOf(s, Step(p, true), h) == Nil;
    assert TreeOf(m, Step(p, false), h) == Nil && TreeOf(m, Step(p, true), h) == Nil;
  }

  /** From the two halves of a traversal to the whole. */
  lemma ExpandJoin(m: Table, n1: Table, n2: Table, p: Path, h: nat)
    requires p in m && Depth(p) < h && Settled(m, p) && AllSingle(TreeOf(m, p, h)) && Closed(m)
    requires Step(p, false) in m || Step(p, true) in m
    requires Single(m[p])
    requires ReadyAt(Spread(m, p), Step(p, false), h) && Expanded(Spread(m, p), n1, Step(p, false), h)
    requires ReadyAt(n1, Step(p, true), h) && Expanded(n1, n2, Step(p, true), h)
    ensures Expanded(m, n2, p, h)
  {
    var s := Spread(m, p);
    SpreadParts(m, p, false, h);
    SpreadParts(m, p, true, h);
    SiblingKept(s, n1, p, false, h);
    SiblingKept(n1, n2, p, true, h);
    SameOutsideTrans(m, s, n1, p);
    SameOutsideTrans(m, n1, n2, p);
    LabelLift(Node(None, Nil, Nil));
  }

  /** Where a traversal of pass one may start. */
  ghost predicate ReadyAt(m: Table, p: Path, h: nat) {
    p in m && Depth(p) <= h && Settled(m, p) && AllSingle(TreeOf(m, p, h))
  }

  lemma ReadyBelow(m: Table, p: Path, h: nat)
    requires ReadyAt(m, p, h) && Depth(p) < h && Closed(m)
    requires Step(p, false) in m || Step(p, true) in m
    ensures ReadyAt(Spread(m, p), Step(p, false), h) && ReadyAt(Spread(m, p), Step(p, true), h)
    ensures forall n | SameOutside(Spread(m, p), n, Step(p, false)) :: ReadyAt(n, Step(p, true), h)
  {
    SpreadParts(m, p, false, h);
    SpreadParts(m, p, true, h);
    LabelLift(Node(None, Nil, Nil));
    forall n | SameOutside(Spread(m, p), n, Step(p, false)) ensures ReadyAt(n, Step(p, true), h) {
      SiblingKept(Spread(m, p), n, p, false, h);
    }
  }

  lemma TrieClosed(bT: BinaryTrie)
    requires bT.Valid()
    ensures Closed(bT.table)
  {
    forall p, b | Step(p, b) in bT.table ensures p in bT.table {
      assert bT.Hangs(Step(p, b));
    }
  }

  /** What pass one does at one node. */
  method SpreadNode(node: BinaryTrieNode, bT: BinaryTrie)
    requires bT.Valid() && bT.Owns(node)
    requires Single(bT.table[node.path]) && Settled(bT.table, node.path)
    modifies bT`nodes, bT`repr, bT`table, bT.repr
    ensures bT.Valid() && Kept(old(bT.nodes), bT.nodes) && bT.Owns(node)
    ensures forall n | n in bT.repr :: n in old(bT.repr) || fresh(n)
    ensures bT.table == Spread(old(bT.table), node.path)
  {
    FilledKeeps(bT.table, node.path);
    FillNode(node, bT);
    PushNode(node, bT);
  }

  method PreOrderTraversalToExpandTrie(node: BinaryTrieNode, bT: BinaryTrie)
    requires bT.Valid() && bT.Owns(node) && ReadyAt(bT.table, node.path, bT.width)
    modifies bT`nodes, bT`repr, bT`table, bT.repr
    ensures bT.Valid() && Kept(old(bT.nodes), bT.nodes)
    ensures forall n | n in bT.repr :: n in old(bT.repr) || fresh(n)
    ensures Expanded(old(bT.table), bT.table, node.path, bT.width)
    decreases bT.width - node.depth, 1
  {
    ghost var start := bT.table;
    TrieClosed(bT);
    SpreadNode(node, bT);
    bT.ChildrenOf(node);
    if node.lchild == null && node.rchild == null {
      ExpandLeaf(start, node.path, bT.width);
    } else {
      ExpandBelow(node, bT, start);
    }
  }

  /** Both children of a node that pass one has just left, the left one first. */
  method ExpandBelow(node: BinaryTrieNode, bT: BinaryTrie, ghost start: Table)
    requires bT.Valid() && bT.Owns(node) && ReadyAt(start, node.path, bT.width) && Closed(start)
    requires node.lchild != null && node.rchild != null && bT.table == Spread(start, node.path)
    requires Step(node.path, false) in start || Step(node.path, true) in start
    modifies bT`nodes, bT`repr, bT`table, bT.repr
    ensures bT.Valid() && Kept(old(bT.nodes), bT.nodes)
    ensures forall n | n in bT.repr :: n in old(bT.repr) || fresh(n)
    ensures Expanded(start, bT.table, node.path, bT.width)
    decreases bT.width - node.depth, 0
  {
    bT.ChildrenOf(node);
    ReadyBelow(start, node.path, bT.width);
    PreOrderTraversalToExpandTrie(node.lchild, bT);
    bT.ChildrenOf(node);
    ghost var half := bT.table;
    PreOrderTraversalToExpandTrie(node.rchild, bT);
    ExpandJoin(start, half, bT.table, node.path, bT.width);
  }

  method PassOne(bT: BinaryTrie)
    requires bT.Valid() && AllSingle(bT.Tree())
    modifies bT`nodes, bT`repr, bT`table, bT.repr
    ensures bT.Valid() && bT.root == old(bT.root)
    ensures forall n | n in bT.repr :: n in old(bT.repr) || fresh(n)
    ensures bT.Tree() == Lift(Expand(Label(old(bT.Tree())), None))
  {
    assert bT.Hangs(Root);
    PreOrderTraversalToExpandTrie(bT.root, bT);
  }

  // ------------------------------------------------------------ pass two

  /** Pass two turned the full subtrie at `p` into its prevalent sets and touched nothing else. */
  ghost predicate MadePrevalent(m: Table, n: Table, p: Path, t: Trie<Nexthop>, h: nat)
    requires Full(t)
  {
    SameOutside(m, n, p) && TreeOf(n, p, h) == Prevalent(t)
  }

  lemma PrevalentJoin(m: Table, n1: Table, n2: Table, p: Path, t: Trie<Nexthop>, h: nat)
    requires Full(t) && t.left.Node? && TreeOf(m, p, h) == Lift(t)
    requires MadePrevalent(m, n1, Step(p, false), t.left, h) && MadePrevalent(n1, n2, Step(p, true), t.right, h)
    ensures Step(p, false) in n2 && Step(p, true) in n2
    ensures MadePrevalent(m, n2[p := Sharp(n2[Step(p, false)], n2[Step(p, true)])], p, t, h)
  {
    OtherChildKept(m, n1, p, false, h);
    OtherChildKept(n1, n2, p, true, h);
    SameOutsideTrans(m, n1, n2, p);
    var n3 := n2[p := Sharp(n2[Step(p, false)], n2[Step(p, true)])];
    BelowUpdate(n2, p, n3[p], false, h);
    BelowUpdate(n2, p, n3[p], true, h);
    assert Under(p, p);
  }

  method PostOrderTraversalToFindPrevalentNextHop(node: BinaryTrieNode, bT: BinaryTrie, ghost t: Trie<Nexthop>)
    requires bT.Valid() && bT.Owns(node)
    requires Full(t) && TreeOf(bT.table, node.path, bT.width) == Lift(t)
    modifies bT`table, bT.repr`nexthopSet
    ensures bT.Valid()
    ensures MadePrevalent(old(bT.table), bT.table, node.path, t, bT.width)
    decreases bT.width - node.depth
  {
    ghost var start, half := bT.table, bT.table;
    bT.ChildrenOf(node);
    if node.lchild != null {
      PostOrderTraversalToFindPrevalentNextHop(node.lchild, bT, t.left);
      half := bT.table;
      OtherChildKept(start, half, node.path, false, bT.width);
    }
    if node.rchild != null {
      PostOrderTraversalToFindPrevalentNextHop(node.rchild, bT, t.right);
    }
    if node.HasChild() {
      PrevalentJoin(start, half, bT.table, node.path, t, bT.width);
      var n1, n2 := node.lchild, node.rchild;
      bT.SetNexthops(node, Sharp(n1.nexthopSet, n2.nexthopSet));
    }
  }

  method PassTwo(bT: BinaryTrie, ghost t: Trie<Nexthop>)
    requires bT.Valid() && Full(t) && bT.Tree() == Lift(t)
    modifies bT`table, bT.repr`nexthopSet
    ensures bT.Valid() && bT.Tree() == Prevalent(t)
  {
    assert bT.Hangs(Root);
    PostOrderTraversalToFindPrevalentNextHop(bT.root, bT, t);
  }

  // ------------------------------------------------------------ pass three

  ghost predicate Chosen(m: Table, n: Table, p: Path, h: nat)
    requires Settled(m, p)
  {
    SameOutside(m, n, p) && TreeOf(n, p, h) == Lift(Choose(TreeOf(m, p, h), Inherited(m, p), p.Root?))
  }

  /** The table after pass three has dealt with the node at `p` alone. */
  ghost function ChosenAt(m: Table, p: Path): Table
    requires p in m && Settled(m, p)
  {
    m[p := {ChooseNode(m[p], Inherited(m, p), p.Root?)}]
  }

  method ChooseNextHop(bT: BinaryTrie, node: BinaryTrieNode)
    requires bT.Valid() && bT.Owns(node) && Settled(bT.table, node.path)
    modifies bT`table, node`nexthopSet
    ensures bT.Valid() && bT.table == ChosenAt(old(bT.table), node.path)
  {
    assert bT.Hangs(node.path);
    var inherited := bT.IsInheritedInNexthopSet(node);
    if !node.IsRoot() && inherited {
      bT.SetNexthops(node, {None});
    } else {
      var choosedNexthop := Least(node.nexthopSet);
      bT.SetNexthops(node, {choosedNexthop});
    }
  }

  lemma ChosenReady(m: Table, p: Path, b: bool, h: nat)
    requires p in m && Depth(p) <= h && Settled(m, p)
    ensures var n := ChosenAt(m, p); var own := ChooseNode(m[p], Inherited(m, p), p.Root?);
      && n[p] == {own} && Settled(n, Step(p, b)) && SameOutside(m, n, p)
      && Inherited(n, Step(p, b)) == Effective(own, Inherited(m, p))
      && TreeOf(n, Step(p, b), h) == TreeOf(m, Step(p, b), h)
  {
    var own := ChooseNode(m[p], Inherited(m, p), p.Root?);
    var n := m[p := {own}];
    assert Under(p, p) && n[p] == {own} && Single(n[p]);
    InheritedKept(m, n, p, p);
    BelowUpdate(m, p, {own}, b, h);
  }

  /** Pass three has dealt with one child, if there is one. */
  ghost predicate ChosenChild(m: Table, n: Table, c: Path, h: nat)
    requires Settled(m, c)
  {
    if c in m then Chosen(m, n, c, h) else n == m
  }

  lemma ChosenJoin(m: Table, n1: Table, n2: Table, p: Path, h: nat)
    requires p in m && Depth(p) <= h && Settled(m, p)
    requires Settled(ChosenAt(m, p), Step(p, false)) && ChosenChild(ChosenAt(m, p), n1, Step(p, false), h)
    requires Settled(n1, Step(p, true)) && ChosenChild(n1, n2, Step(p, true), h)
    ensures Chosen(m, n2, p, h)
  {
    var n := ChosenAt(m, p);
    ChosenReady(m, p, false, h);
    ChosenReady(m, p, true, h);
    SiblingKept(n, n1, p, false, h);
    SiblingKept(n1, n2, p, true, h);
    SameOutsideTrans(m, n, n1, p);
    SameOutsideTrans(m, n1, n2, p);
  }

  method PreOrderTraversalToChooseNextHop(bT: BinaryTrie, node: BinaryTrieNode)
    requires bT.Valid() && bT.Owns(node) && Settled(bT.table, node.path)
    modifies bT`table, bT.repr`nexthopSet
    ensures bT.Valid()
    ensures Chosen(old(bT.table), bT.table, node.path, bT.width)
    decreases bT.width - node.depth
  {
    ghost var start := bT.table;
    ChooseNextHop(bT, node);
    bT.ChildrenOf(node);
    ChosenReady(start, node.path, false, bT.width);
    ChosenReady(start, node.path, true, bT.width);
    ghost var first := bT.table;
    if node.lchild != null {
      PreOrderTraversalToChooseNextHop(bT, node.lchild);
    }
    ghost var half := bT.table;
    SiblingKept(first, half, node.path, false, bT.width);
    if node.rchild != null {
      PreOrderTraversalToChooseNextHop(bT, node.rchild);
    }
    ChosenJoin(start, half, bT.table, node.path, bT.width);
  }

  method PassThree(bT: BinaryTrie)
    requires bT.Valid()
    modifies bT`table, bT.repr`nexthopSet
    ensures bT.Valid() && bT.Tree() == Lift(Choose(old(bT.Tree()), None, true))
  {
    assert bT.Hangs(Root);
    PreOrderTraversalToChooseNextHop(bT, bT.root);
  }

  // ------------------------------------------------------------ the whole compression

  /** Compresses a trie in place.  Every address keeps its answer, and no table of any
      shape that gives these answers has fewer entries. */
  method CompressByORTC(bT: BinaryTrie)
    requires bT.Valid() && AllSingle(bT.Tree()) && Rooted(Label(bT.Tree()))
    modifies bT`nodes, bT`repr, bT`table, bT.repr
    ensures bT.Valid() && AllSingle(bT.Tree()) && Rooted(Label(bT.Tree()))
    ensures forall n | n in bT.repr :: n in old(bT.repr) || fresh(n)
    ensures Label(bT.Tree()) == Compress(old(Label(bT.Tree())))
    ensures forall w | bT.width <= w :: SameAnswers(Label(bT.Tree()), old(Label(bT.Tree())), w)
    ensures forall w, c | bT.width <= w && SameAnswers(c, old(Label(bT.Tree())), w) ::
      CountSets(bT.Tree()) <= Count(c)
  {
    ghost var t := Label(bT.Tree());
    ExpandIsFull(t, None);
    TreeOfHeight(bT.table, Root, bT.width);
    LiftLabel(bT.Tree());
    PassOne(bT);
    PassTwo(bT, Expand(t, None));
    PassThree(bT);
    CompressFacts(bT.table, t, bT.width);
  }

  lemma CompressFacts(m: Table, t: Trie<Nexthop>, h: nat)
    requires Rooted(t) && TreeOf(m, Root, h) == Lift(Compress(t)) && Height(t) <= h + 1
    ensures AllSingle(TreeOf(m, Root, h)) && Label(TreeOf(m, Root, h)) == Compress(t)
    ensures Rooted(Compress(t))
    ensures forall w | h <= w :: SameAnswers(Compress(t), t, w)
    ensures forall w, c | h <= w && SameAnswers(c, t, w) :: CountSets(TreeOf(m, Root, h)) <= Count(c)
  {
    LabelLift(Compress(t));
    CompressShape(t);
    forall w | h <= w ensures SameAnswers(Compress(t), t, w) {
      CompressKeepsAnswers(t, w);
    }
    forall w, c | h <= w && SameAnswers(c, t, w) ensures Count(Compress(t)) <= Count(c) {
      CompressIsMinimal(t, c, w);
    }
  }
}
