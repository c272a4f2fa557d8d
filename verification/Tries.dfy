/** Binary tries labelled with next hops, and what a packet sees in one.

    `Lookup` is longest-prefix match (section 5.1 of RFC 4632): the deepest label met
    on the address's path wins.  `Count` is the size of the table a trie stands for. */
module Tries {

  datatype Option<+T> = None | Some(value: T)

  /** A next hop as the source stores it: a node id, or Python's `None`. */
  type Nexthop = Option<int>

  /** The values below a trie node.  The source keeps sets of next hops on its nodes; a
      trie of single next hops is the special case where every set is a singleton. */
  datatype Trie<+A> = Nil | Node(val: A, left: Trie<A>, right: Trie<A>)

  function Height<A>(t: Trie<A>): nat {
    match t
    case Nil => 0
    case Node(_, l, r) => 1 + if Height(l) < Height(r) then Height(r) else Height(l)
  }

  /** What a node passes down: its own next hop when it has one, else the inherited one. */
  function Effective(own: Nexthop, inherited: Nexthop): Nexthop {
    if own.None? then inherited else own
  }

  function Lookup(t: Trie<Nexthop>, addr: seq<bool>, inherited: Nexthop): Nexthop {
    match t
    case Nil => inherited
    case Node(h, l, r) =>
      var here := Effective(h, inherited);
      if addr == [] then here
      else if addr[0] then Lookup(r, addr[1..], here)
      else Lookup(l, addr[1..], here)
  }

  function Count(t: Trie<Nexthop>): nat {
    match t
    case Nil => 0
    case Node(h, l, r) => (if h.None? then 0 else 1) + Count(l) + Count(r)
  }

  /** Two tables give every `w`-bit address the same answer. */
  ghost predicate SameAnswers(t: Trie<Nexthop>, u: Trie<Nexthop>, w: nat) {
    forall a: seq<bool> | |a| == w :: Lookup(t, a, None) == Lookup(u, a, None)
  }

  /** Every node has no child or two children. */
  predicate Full<A>(t: Trie<A>) {
    t.Node? && ((t.left.Nil? && t.right.Nil?) || (Full(t.left) && Full(t.right)))
  }

  /** In a full trie: the label of the leaf whose region holds the address. */
  function LeafAt(t: Trie<Nexthop>, addr: seq<bool>): Nexthop
    requires Full(t)
  {
    if t.left.Nil? || addr == [] then t.val
    else if addr[0] then LeafAt(t.right, addr[1..])
    else LeafAt(t.left, addr[1..])
  }
}
