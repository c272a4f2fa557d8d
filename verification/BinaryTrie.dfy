/** The trie the source builds from a rule list: nodes in the heap, linked both ways.

    The ghost field `nodes` names every node by its position, and `table` is what the
    nodes store. */
module BinaryTries {
  import opened Counters
  import opened Tries
  import opened Paths

  /** A rule: the low `length` bits of `prefix`, read from the highest of them down. */
  datatype Rule = Rule(prefix: int, length: nat, nexthop: int)

  /** Bit `idx` of a Python integer (two's complement below zero): shift right, take the
      lowest bit. */
  function Bit(prefix: int, idx: nat): bool
    decreases idx
  {
    if idx == 0 then prefix % 2 == 1 else Bit(prefix / 2, idx - 1)
  }

  /** The position after `n` turns of the walk for a rule. */
  function Walk(r: Rule, n: nat): Path
    requires n <= r.length
  {
    if n == 0 then Root else Step(Walk(r, n - 1), Bit(r.prefix, r.length - n))
  }

  function RulePath(r: Rule): Path {
    Walk(r, r.length)
  }

  // ------------------------------------------------------------ what rules mean

  /** The next hop of the earliest rule for exactly this position. */
  function FirstHop(rules: seq<Rule>, p: Path): Nexthop {
    if rules == [] then None
    else
      var before := FirstHop(rules[..|rules| - 1], p);
      if before.Some? then before
      else if RulePath(rules[|rules| - 1]) == p then Some(rules[|rules| - 1].nexthop)
      else None
  }

  /** Some rule's position is at or below `p`. */
  ghost predicate Covered(rules: seq<Rule>, p: Path) {
    exists i :: 0 <= i < |rules| && Under(RulePath(rules[i]), p)
  }

  function Occurrences(rules: seq<Rule>, x: int): nat {
    if rules == [] then 0
    else
      Occurrences(rules[..|rules| - 1], x) + if rules[|rules| - 1].nexthop == x then 1 else 0
  }

  function MaxLength(rules: seq<Rule>): nat {
    if rules == [] then 0
    else
      var m, n := MaxLength(rules[..|rules| - 1]), rules[|rules| - 1].length;
      if m < n then n else m
  }

  lemma {:induction false} MaxLengthBounds(rules: seq<Rule>, i: nat)
    requires i < |rules|
    ensures rules[i].length <= MaxLength(rules)
  {
    if i < |rules| - 1 { MaxLengthBounds(rules[..|rules| - 1], i); }
  }

  lemma {:induction false} WalkDepth(r: Rule, n: nat)
    requires n <= r.length
    ensures Depth(Walk(r, n)) == n
  {
    if n > 0 { WalkDepth(r, n - 1); }
  }

  // ------------------------------------------------------------ adding rules to a table

  /** The table after one turn of the walk. */
  function Touch(m: Table, p: Path, x: Nexthop): Table {
    if p !in m then m[p := {x}]
    else if x != None && m[p] == {None} then m[p := {x}]
    else m
  }

  /** The table after `n` turns of the walk for one rule. */
  function Walked(m: Table, r: Rule, n: nat): Table
    requires n <= r.length
  {
    if n == 0 then m
    else Touch(Walked(m, r, n - 1), Walk(r, n), if n == r.length then Some(r.nexthop) else None)
  }

  /** The table holds the root's set, and exactly the positions on the way to the rules'
      positions, each with the next hop of the earliest rule for it. */
  ghost predicate Refines(m: Table, rules: seq<Rule>, top: set<Nexthop>) {
    && (forall p :: p in m <==> p == Root || Covered(rules, p))
    && m[Root] == top
    && forall p | p in m && p != Root :: m[p] == {FirstHop(rules, p)}
  }

  lemma {:induction false} WalkedPart(m: Table, r: Rule, n: nat)
    requires Root in m && n <= r.length
    ensures forall p :: p in Walked(m, r, n) <==> p in m || Under(Walk(r, n), p)
    ensures forall p | p in Walked(m, r, n) ::
      Walked(m, r, n)[p] ==
        if p == RulePath(r) && p != Root && n == r.length && (p !in m || m[p] == {None}) then {Some(r.nexthop)}
        else if p in m then m[p]
        else {None}
  {
    if n > 0 {
      WalkedPart(m, r, n - 1);
      WalkDepth(r, n);
      WalkDepth(r, n - 1);
      if Under(Walk(r, n - 1), Walk(r, n)) { UnderDepth(Walk(r, n - 1), Walk(r, n)); }
    }
  }

  lemma WalkRefines(m: Table, rules: seq<Rule>, top: set<Nexthop>)
    requires rules != [] && Refines(m, rules[..|rules| - 1], top)
    ensures Refines(Walked(m, rules[|rules| - 1], rules[|rules| - 1].length), rules, top)
  {
    var before, r := rules[..|rules| - 1], rules[|rules| - 1];
    WalkedPart(m, r, r.length);
    forall p ensures Covered(rules, p) <==> Covered(before, p) || Under(RulePath(r), p) {
      CoveredLast(rules, p);
    }
    forall p | !Covered(before, p) ensures FirstHop(before, p) == None {
      if FirstHop(before, p).Some? { FirstHopCovered(before, p); }
    }
  }

  lemma CoveredLast(rules: seq<Rule>, p: Path)
    requires rules != []
    ensures Covered(rules, p) <==>
      Covered(rules[..|rules| - 1], p) || Under(RulePath(rules[|rules| - 1]), p)
  {
    var before := rules[..|rules| - 1];
    if Covered(before, p) {
      var i :| 0 <= i < |before| && Under(RulePath(before[i]), p);
      assert rules[i] == before[i];
    }
    if Covered(rules, p) {
      var i :| 0 <= i < |rules| && Under(RulePath(rules[i]), p);
      assert i < |before| ==> rules[i] == before[i];
    }
  }

  lemma {:induction false} FirstHopCovered(rules: seq<Rule>, p: Path)
    requires FirstHop(rules, p).Some?
    ensures Covered(rules, p)
  {
    CoveredLast(rules, p);
    if FirstHop(rules[..|rules| - 1], p).Some? { FirstHopCovered(rules[..|rules| - 1], p); }
  }

  // ------------------------------------------------------------ the heap

  class BinaryTrieNode {
    var parent: BinaryTrieNode?
    var lchild: BinaryTrieNode?
    var rchild: BinaryTrieNode?
    var inheritedNexthop: Nexthop
    var nexthopSet: set<Nexthop>
    var depth: nat
    ghost const path: Path

    constructor (parent: BinaryTrieNode?, nexthop: Nexthop, depth: nat, ghost path: Path)
      ensures this.parent == parent && lchild == null && rchild == null
      ensures nexthopSet == {nexthop} && inheritedNexthop == None
      ensures this.depth == depth && this.path == path
    {
      this.parent := parent;
      lchild, rchild := null, null;
      inheritedNexthop := None;
      nexthopSet := {nexthop};
      this.depth := depth;
      this.path := path;
    }

    predicate HasChild()
      reads this
    {
      lchild != null || rchild != null
    }

    predicate IsNextHopNone()
      reads this
    {
      nexthopSet == {None} || nexthopSet == {}
    }

    predicate IsRoot()
      reads this
    {
      parent == null
    }
  }

  class BinaryTrie {
    const rules: seq<Rule>
    ghost const width: nat  // the length of the longest rule
    var mostNexthop: Nexthop
    var root: BinaryTrieNode
    var nexthopCount: nat
    ghost var nodes: map<Path, BinaryTrieNode>
    ghost var repr: set<BinaryTrieNode>
    ghost var table: Table

    ghost predicate Owns(node: BinaryTrieNode)
      reads `nodes
    {
      node.path in nodes && nodes[node.path] == node
    }

    /** The node at `p` and its parent point at each other. */
    ghost predicate Hangs(p: Path)
      requires Named() && p in nodes
      reads `root, `nodes, `repr, `table, repr
    {
      match p
      case Root => nodes[p] == root && root.parent == null
      case Step(up, b) =>
        && up in nodes
        && nodes[p].parent == nodes[up]
        && (if b then nodes[up].rchild else nodes[up].lchild) == nodes[p]
    }

    /** The children of the node at `p` are the nodes at the two positions below it. */
    ghost predicate Holds(p: Path)
      requires Named() && p in nodes
      reads `root, `nodes, `repr, `table, repr
    {
      && (nodes[p].lchild != null ==> Step(p, false) in nodes && nodes[Step(p, false)] == nodes[p].lchild)
      && (nodes[p].rchild != null ==> Step(p, true) in nodes && nodes[Step(p, true)] == nodes[p].rchild)
    }

    ghost predicate Named()
      reads `nodes, `repr, `table
    {
      && Root in nodes
      && (forall p :: p in nodes <==> p in table)
      && forall p {:trigger nodes[p]} | p in nodes :: nodes[p] in repr && nodes[p].path == p
    }

    ghost predicate Valid()
      reads `root, `nodes, `repr, `table, repr
    {
      && Named()
      && (forall p {:trigger nodes[p]} | p in nodes ::
           nodes[p].depth == Depth(p) <= width && nodes[p].nexthopSet == table[p])
      && (forall p {:trigger Hangs(p)} | p in nodes :: Hangs(p))
      && (forall p {:trigger Holds(p)} | p in nodes :: Holds(p))
    }

    ghost function Tree(): Trie<set<Nexthop>>
      reads `table
    {
      TreeOf(table, Root, width)
    }

    constructor (rules: seq<Rule>)
      ensures Valid() && fresh(repr)
      ensures this.rules == rules && width == MaxLength(rules)
      ensures rules == [] ==> mostNexthop == None
      ensures rules != [] ==>
        && mostNexthop.Some?
        && 0 < Occurrences(rules, mostNexthop.value)
        && forall y :: Occurrences(rules, y) <= Occurrences(rules, mostNexthop.value)
      ensures Refines(table, rules, {mostNexthop})
    {
      this.rules := rules;
      width := MaxLength(rules);
      var most := FindMostNexthop(rules);
      var r := new BinaryTrieNode(null, most, 0, Root);
      mostNexthop := most;
      root := r;
      nexthopCount := 0;
      nodes := map[Root := r];
      repr := {r};
      table := map[Root := {most}];
      new;
      ConstructBinaryTrie();
    }

    /** A next hop that no other next hop of the rules outnumbers. */
    static method FindMostNexthop(rules: seq<Rule>) returns (most: Nexthop)
      ensures rules == [] ==> most == None
      ensures rules != [] ==>
        && most.Some?
        && 0 < Occurrences(rules, most.value)
        && forall y :: Occurrences(rules, y) <= Occurrences(rules, most.value)
    {
      var counter: map<int, nat> := map[];
      for i := 0 to |rules|
        invariant forall x :: Occurrences(rules[..i], x) == if x in counter then counter[x] else 0
        invariant forall x | x in counter :: counter[x] > 0
        invariant i > 0 ==> counter != map[]
      {
        assert rules[..i + 1][..i] == rules[..i];
        var x := rules[i].nexthop;
        counter := counter[x := if x in counter then counter[x] + 1 else 1];
      }
      assert rules[..|rules|] == rules;
      if counter == map[] {
        return None;
      }
      var best := MaxKey(counter);
      most := Some(best);
    }

    /** All is well but that the parent of the node at `here` does not know it yet. */
    ghost predicate AlmostValid(here: Path)
      reads `root, `nodes, `repr, `table, repr
    {
      && Named()
      && (forall p {:trigger nodes[p]} | p in nodes ::
           nodes[p].depth == Depth(p) <= width && nodes[p].nexthopSet == table[p])
      && (forall p {:trigger Hangs(p)} | p in nodes && p != here :: Hangs(p))
      && (forall p {:trigger Holds(p)} | p in nodes :: Holds(p))
    }

    /** Makes a node below `up`, without hanging it there. */
    method NewChild(up: BinaryTrieNode, bit: bool, nexthop: Nexthop) returns (child: BinaryTrieNode)
      requires Valid() && Owns(up) && up.depth < width && Step(up.path, bit) !in nodes
      modifies `nodes, `repr, `table
      ensures fresh(child) && child.path == Step(up.path, bit) && child.parent == up
      ensures child.lchild == null && child.rchild == null
      ensures nodes == old(nodes)[child.path := child] && repr == old(repr) + {child}
      ensures table == old(table)[child.path := {nexthop}]
      ensures AlmostValid(child.path)
    {
      ghost var here := Step(up.path, bit);
      child := new BinaryTrieNode(up, nexthop, up.depth + 1, here);
      nodes, repr, table := nodes[here := child], repr + {child}, table[here := {nexthop}];
      assert child !in old(repr);
      forall p | p in nodes && p != here ensures Hangs(p) && Holds(p) {
        assert old(Hangs(p)) && old(Holds(p));
      }
    }

    /** Hangs a new node on the free left side of `up`. */
    method AddLeftChild(up: BinaryTrieNode, nexthop: Nexthop) returns (child: BinaryTrieNode)
      requires Valid() && Owns(up) && up.depth < width
      requires up.lchild == null
      modifies `nodes, `repr, `table, up`lchild
      ensures Valid()
      ensures fresh(child) && child.path == Step(up.path, false) && child.path !in old(nodes)
      ensures nodes == old(nodes)[child.path := child] && repr == old(repr) + {child}
      ensures table == old(table)[child.path := {nexthop}]
    {
      ChildrenOf(up);
      child := NewChild(up, false, nexthop);
      label made:
      up.lchild := child;
      forall p | p in nodes ensures Hangs(p) && Holds(p) {
        assert old@made(Holds(p)) && (p != child.path ==> old@made(Hangs(p)));
      }
    }

    /** Hangs a new node on the free right side of `up`. */
    method AddRightChild(up: BinaryTrieNode, nexthop: Nexthop) returns (child: BinaryTrieNode)
      requires Valid() && Owns(up) && up.depth < width
      requires up.rchild == null
      modifies `nodes, `repr, `table, up`rchild
      ensures Valid()
      ensures fresh(child) && child.path == Step(up.path, true) && child.path !in old(nodes)
      ensures nodes == old(nodes)[child.path := child] && repr == old(repr) + {child}
      ensures table == old(table)[child.path := {nexthop}]
    {
      ChildrenOf(up);
      child := NewChild(up, true, nexthop);
      label made:
      up.rchild := child;
      forall p | p in nodes ensures Hangs(p) && Holds(p) {
        assert old@made(Holds(p)) && (p != child.path ==> old@made(Hangs(p)));
      }
    }

    /** Gives a node a set of next hops. */
    method SetNexthops(node: BinaryTrieNode, nexthops: set<Nexthop>)
      requires Valid() && Owns(node)
      modifies `table, node`nexthopSet
      ensures Valid()
      ensures table == old(table)[node.path := nexthops]
    {
      node.nexthopSet := nexthops;
      table := table[node.path := nexthops];
      forall p | p in nodes ensures Hangs(p) && Holds(p) {
        assert old(Hangs(p)) && old(Holds(p));
      }
    }

    /** Gives a node the one next hop it inherits. */
    method SetInherited(node: BinaryTrieNode, nexthop: Nexthop)
      requires Valid() && Owns(node)
      modifies `table, node`inheritedNexthop, node`nexthopSet
      ensures Valid()
      ensures table == old(table)[node.path := {nexthop}]
    {
      node.inheritedNexthop := nexthop;
      node.nexthopSet := {nexthop};
      table := table[node.path := {nexthop}];
      forall p | p in nodes ensures Hangs(p) && Holds(p) {
        assert old(Hangs(p)) && old(Holds(p));
      }
    }

    /** One turn of the walk below `currentNode`: the child on the side of the next bit is
        created if it is missing, and an existing one takes the next hop if it has none. */
    method StepDown(currentNode: BinaryTrieNode, bit: bool, newNodeNexthop: Nexthop) returns (child: BinaryTrieNode)
      requires Valid() && Owns(currentNode) && currentNode.depth < width
      modifies `nodes, `repr, `table, currentNode, repr`nexthopSet
      ensures Valid() && Owns(child)
      ensures old(repr) <= repr && fresh(repr - old(repr))
      ensures child.path == Step(currentNode.path, bit)
      ensures table == Touch(old(table), child.path, newNodeNexthop)
    {
      ChildrenOf(currentNode);
      if !bit {
        if currentNode.lchild == null {
          child := AddLeftChild(currentNode, newNodeNexthop);
        } else {
          child := currentNode.lchild;
          if newNodeNexthop != None && child.nexthopSet == {None} {
            SetNexthops(child, {newNodeNexthop});
          }
        }
      } else {
        if currentNode.rchild == null {
          child := AddRightChild(currentNode, newNodeNexthop);
        } else {
          child := currentNode.rchild;
          if newNodeNexthop != None && child.nexthopSet == {None} {
            SetNexthops(child, {newNodeNexthop});
          }
        }
      }
    }

    /** Walks one rule's prefix from the root; the last node takes the rule's next hop. */
    method InsertRule(rule: Rule)
      requires Valid() && rule.length <= width
      modifies `nodes, `repr, `table, repr
      ensures Valid()
      ensures old(repr) <= repr && fresh(repr - old(repr))
      ensures table == Walked(old(table), rule, rule.length)
    {
      var currentNode := root;
      assert Hangs(Root);
      for idx := 1 to rule.length + 1
        invariant Valid() && Owns(currentNode)
        invariant old(repr) <= repr && fresh(repr - old(repr))
        invariant currentNode.path == Walk(rule, idx - 1)
        invariant table == Walked(old(table), rule, idx - 1)
      {
        WalkDepth(rule, idx - 1);
        var newNodeNexthop := if idx == rule.length then Some(rule.nexthop) else None;
        currentNode := StepDown(currentNode, Bit(rule.prefix, rule.length - idx), newNodeNexthop);
      }
    }

    method ConstructBinaryTrie()
      requires width == MaxLength(rules)
      requires Valid() && nodes == map[Root := root] && repr == {root} && table[Root] == root.nexthopSet
      modifies `nodes, `repr, `table, root
      ensures Valid()
      ensures fresh(repr - {root})
      ensures Refines(table, rules, old(root.nexthopSet))
    {
      for k := 0 to |rules|
        invariant Valid()
        invariant fresh(repr - {root})
        invariant Refines(table, rules[..k], old(root.nexthopSet))
      {
        InsertNext(k, old(root.nexthopSet));
      }
      assert rules[..|rules|] == rules;
    }

    method InsertNext(k: nat, ghost top: set<Nexthop>)
      requires Valid() && k < |rules| && width == MaxLength(rules) && Refines(table, rules[..k], top)
      modifies `nodes, `repr, `table, repr
      ensures Valid() && old(repr) <= repr && fresh(repr - old(repr))
      ensures Refines(table, rules[..k + 1], top)
    {
      ghost var before := table;
      MaxLengthBounds(rules, k);
      InsertRule(rules[k]);
      assert rules[..k + 1][..k] == rules[..k];
      WalkRefines(before, rules[..k + 1], top);
    }

    /** The next hop of the nearest ancestor that has one. */
    method GetInherited(node: BinaryTrieNode) returns (nexthop: Nexthop)
      requires Valid() && Owns(node) && Settled(table, node.path)
      ensures nexthop == Inherited(table, node.path)
      decreases node.depth
    {
      assert Hangs(node.path);
      var parent := node.parent;
      if parent != null {
        if parent.nexthopSet != {None} {
          nexthop :| nexthop in parent.nexthopSet;
        } else {
          nexthop := GetInherited(parent);
        }
      } else {
        nexthop := None;
      }
    }

    method IsInheritedInNexthopSet(node: BinaryTrieNode) returns (b: bool)
      requires Valid() && Owns(node) && Settled(table, node.path)
      ensures b <==> Inherited(table, node.path) in node.nexthopSet
    {
      var inheritedNexthop := GetInherited(node);
      b := inheritedNexthop in node.nexthopSet;
    }

    /** The number of nodes that carry a next hop. */
    method CountRules() returns (count: nat)
      requires Valid()
      modifies `nexthopCount
      ensures count == nexthopCount == CountSets(Tree())
    {
      nexthopCount := 0;
      assert Hangs(Root);
      PreOrderTraversalToCountNextHop(root);
      count := nexthopCount;
    }

    method PreOrderTraversalToCountNextHop(node: BinaryTrieNode)
      requires Valid() && Owns(node)
      modifies `nexthopCount
      ensures nexthopCount == old(nexthopCount) + CountSets(TreeOf(table, node.path, width))
      decreases width - node.depth
    {
      ChildrenOf(node);
      if node.nexthopSet != {None} {
        nexthopCount := nexthopCount + 1;
      }
      if node.lchild != null {
        PreOrderTraversalToCountNextHop(node.lchild);
      }
      if node.rchild != null {
        PreOrderTraversalToCountNextHop(node.rchild);
      }
    }

    /** A child pointer leads to the node one step down; a null one means there is none. */
    lemma ChildrenOf(node: BinaryTrieNode)
      requires Valid() && Owns(node)
      ensures node.lchild == null <==> Step(node.path, false) !in nodes
      ensures node.rchild == null <==> Step(node.path, true) !in nodes
      ensures node.lchild != null ==>
        Owns(node.lchild) && node.lchild.path == Step(node.path, false) && node.lchild.depth == node.depth + 1 <= width
      ensures node.rchild != null ==>
        Owns(node.rchild) && node.rchild.path == Step(node.path, true) && node.rchild.depth == node.depth + 1 <= width
    {
      assert Holds(node.path);
      if Step(node.path, false) in nodes { assert Hangs(Step(node.path, false)); }
      if Step(node.path, true) in nodes { assert Hangs(Step(node.path, true)); }
    }
  }
}
