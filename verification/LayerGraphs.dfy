/** The pieces the multi-layer graph is made of, and what taking a node out of it leaves. */
module LayerGraphs {
  import opened Nodes
  import opened Sets
  import opened StagePaths

  type Links = set<(int, int)>

  function AddEdge(g: Graph, a: LayerNode, b: LayerNode): Graph {
    Graph(g.nodes + {a, b}, g.edges + {(a, b)})
  }

  function RemoveNode(g: Graph, x: LayerNode): Graph {
    if x in g.nodes then Graph(g.nodes - {x}, set e | e in g.edges && e.0 != x && e.1 != x) else g
  }

  // ------------------------------------------------------------ stages with padding

  /** A stage of one node is written with the node twice. */
  function Padded(stage: seq<int>): seq<int> {
    if |stage| == 1 then stage + stage else stage
  }

  function PadAll(pieces: seq<seq<int>>): seq<seq<int>> {
    seq(|pieces|, i requires 0 <= i < |pieces| => Padded(pieces[i]))
  }

  lemma SplitPadded(p: seq<LayerNode>, first: nat, count: nat, stages: seq<seq<int>>)
    requires first <= count == |stages| && forall i | 0 <= i < count :: stages[i] == Padded(StageOf(p, i))
    ensures stages[first..] == PadAll(Pieces(p, first, count - first))
  {
  }

  function NonEmpty(s: seq<seq<int>>): seq<seq<int>> {
    if s == [] then [] else NonEmpty(s[..|s| - 1]) + if s[|s| - 1] == [] then [] else [s[|s| - 1]]
  }

  lemma {:induction false} NonEmptyAppend(a: seq<seq<int>>, b: seq<seq<int>>)
    ensures NonEmpty(a + b) == NonEmpty(a) + NonEmpty(b)
  {
    if b == [] {
      assert a + b == a;
    } else {
      NonEmptyAppend(a, b[..|b| - 1]);
      assert (a + b)[..|a + b| - 1] == a + b[..|b| - 1];
    }
  }

  lemma NonEmptyWithout(s: seq<seq<int>>, i: nat)
    requires i < |s| && s[i] == []
    ensures NonEmpty(s[..i] + s[i + 1..]) == NonEmpty(s)
  {
    var a, b := s[..i], s[i + 1..];
    var head := s[..i + 1];
    assert head[..i] == a && s == head + b;
    NonEmptyAppend(head, b);
    NonEmptyAppend(a, b);
    NonEmptyLast(head);
  }

  lemma NonEmptyLast(s: seq<seq<int>>)
    requires s != [] && s[|s| - 1] == []
    ensures NonEmpty(s) == NonEmpty(s[..|s| - 1])
  {
  }

  lemma {:induction false} NonEmptyAll(s: seq<seq<int>>)
    requires forall i | 0 <= i < |s| :: s[i] != []
    ensures NonEmpty(s) == s
  {
    if s != [] { NonEmptyAll(s[..|s| - 1]); }
  }

  lemma {:induction false} NonEmptyNone(s: seq<seq<int>>)
    requires forall i | 0 <= i < |s| :: s[i] == []
    ensures NonEmpty(s) == []
  {
    if s != [] { NonEmptyNone(s[..|s| - 1]); }
  }

  lemma NonEmptySuffix(s: seq<seq<int>>, first: nat)
    requires first <= |s|
    requires forall i | 0 <= i < first :: s[i] == []
    requires forall i | first <= i < |s| :: s[i] != []
    ensures NonEmpty(s) == s[first..]
  {
    NonEmptyNone(s[..first]);
    NonEmptyAll(s[first..]);
    NonEmptyAppend(s[..first], s[first..]);
    assert s == s[..first] + s[first..];
  }

  // ------------------------------------------------------------ the layers

  function HostsOf(stage: seq<Node>): set<int> {
    set v | v in stage :: v.id
  }

  function ServersOf(stage: seq<Node>): set<int> {
    set v | v in stage && v.ServerNode? :: v.id
  }

  function LinkEdges(links: Links, layer: nat): set<LayerEdge> {
    set l | l in links :: (LayerNode(l.0, layer), LayerNode(l.1, layer))
  }

  /** Both directions between each server and its switch. */
  function AttachEdges(switchOf: map<int, int>, servers: set<int>, layer: nat): set<LayerEdge> {
    (set v | v in servers && v in switchOf :: (LayerNode(v, layer), LayerNode(switchOf[v], layer)))
    + (set v | v in servers && v in switchOf :: (LayerNode(switchOf[v], layer), LayerNode(v, layer)))
  }

  function CrossEdges(stage: seq<Node>, layer: nat): set<LayerEdge> {
    set v | v in stage :: (LayerNode(v.id, layer), LayerNode(v.id, layer + 1))
  }

  lemma ServerIn(list: seq<Node>, id: int)
    ensures id in ServersOf(list) <==> ServerNode(id) in list
  {
    if ServerNode(id) in list { assert ServerNode(id).id == id; }
  }

  lemma LinkEdge(links: Links, layer: nat, e: LayerEdge)
    ensures e in LinkEdges(links, layer) <==> e.0.layer == e.1.layer == layer && (e.0.id, e.1.id) in links
  {
    if e.0.layer == e.1.layer == layer && (e.0.id, e.1.id) in links {
      var l := (e.0.id, e.1.id);
      assert e == (LayerNode(l.0, layer), LayerNode(l.1, layer));
    }
  }

  lemma AttachEdge(switchOf: map<int, int>, servers: set<int>, layer: nat, e: LayerEdge)
    ensures e in AttachEdges(switchOf, servers, layer) <==>
      && e.0.layer == e.1.layer == layer
      && ((e.0.id in servers && e.0.id in switchOf && switchOf[e.0.id] == e.1.id)
          || (e.1.id in servers && e.1.id in switchOf && switchOf[e.1.id] == e.0.id))
  {
    if e.0.layer == e.1.layer == layer && e.0.id in servers && e.0.id in switchOf && switchOf[e.0.id] == e.1.id {
      assert e == (LayerNode(e.0.id, layer), LayerNode(switchOf[e.0.id], layer));
    }
    if e.0.layer == e.1.layer == layer && e.1.id in servers && e.1.id in switchOf && switchOf[e.1.id] == e.0.id {
      assert e == (LayerNode(switchOf[e.1.id], layer), LayerNode(e.1.id, layer));
    }
  }

  lemma AttachMore(switchOf: map<int, int>, servers: set<int>, v: int, layer: nat)
    requires v in switchOf
    ensures AttachEdges(switchOf, servers + {v}, layer) == AttachEdges(switchOf, servers, layer)
      + {(LayerNode(v, layer), LayerNode(switchOf[v], layer)), (LayerNode(switchOf[v], layer), LayerNode(v, layer))}
  {
  }

  lemma ServersMore(list: seq<Node>, n: nat)
    requires n < |list|
    ensures ServersOf(list[..n + 1]) == ServersOf(list[..n]) + if list[n].ServerNode? then {list[n].id} else {}
    ensures ServersOf(list[..n + 1]) <= ServersOf(list)
  {
    assert list[..n + 1] == list[..n] + [list[n]];
  }

  // ------------------------------------------------------------ taking a node out

  /** The node of the multi-layer graph stands for the network node in a layer below `n`. */
  predicate Stands(x: LayerNode, id: int, n: nat) {
    x.id == id && x.layer < n
  }

  /** The graph without a network node in the layers below `n`. */
  function Without(g: Graph, id: int, n: nat): Graph {
    Graph(set x | x in g.nodes && !Stands(x, id, n),
          set e | e in g.edges && !Stands(e.0, id, n) && !Stands(e.1, id, n))
  }

  lemma WithoutNone(g: Graph, id: int)
    ensures Without(g, id, 0) == g
  {
    assert Without(g, id, 0).nodes == g.nodes && Without(g, id, 0).edges == g.edges;
  }

  lemma WithoutMore(g: Graph, id: int, n: nat)
    requires WellFormed(g)
    ensures RemoveNode(Without(g, id, n), LayerNode(id, n)) == Without(g, id, n + 1)
  {
    var m := n + 1;
    var a, b, x := Without(g, id, n), Without(g, id, m), LayerNode(id, n);
    assert forall y :: Stands(y, id, m) <==> Stands(y, id, n) || y == x;
    assert RemoveNode(a, x).nodes == b.nodes;
    assert RemoveNode(a, x).edges == b.edges;
  }

  /** A path that never meets the network node is one without it. */
  lemma PathAvoids(g: Graph, p: seq<LayerNode>, s: LayerNode, t: LayerNode, id: int, n: nat)
    requires IsPath(g, p, s, t) && forall k | 0 <= k < |p| :: p[k].id != id
    ensures IsPath(Without(g, id, n), p, s, t)
  {
    forall k | 0 <= k < |p| - 1 ensures EdgeAt(Without(g, id, n), p, k) { assert EdgeAt(g, p, k); }
  }

  /** A path without the network node is one of the graph, and does not meet it below `n`. */
  lemma PathThere(g: Graph, p: seq<LayerNode>, s: LayerNode, t: LayerNode, id: int, n: nat)
    requires IsPath(Without(g, id, n), p, s, t)
    ensures IsPath(g, p, s, t) && forall k | 0 <= k < |p| :: !Stands(p[k], id, n)
  {
    forall k | 0 <= k < |p| - 1 ensures EdgeAt(g, p, k) { assert EdgeAt(Without(g, id, n), p, k); }
  }

  /** The node is in none of the pieces. */
  ghost predicate Avoids(pieces: seq<seq<int>>, id: int) {
    forall k | 0 <= k < |pieces| :: id !in pieces[k]
  }

  lemma PiecesAvoid(p: seq<LayerNode>, first: nat, count: nat, id: int, n: nat)
    requires first + count <= n && forall k | 0 <= k < |p| :: !Stands(p[k], id, n)
    ensures Avoids(Pieces(p, first, count), id)
  {
    var pieces := Pieces(p, first, count);
    forall k | 0 <= k < |pieces| ensures id !in pieces[k] {
      StageNodes(p, first + k, id);
      assert Stands(LayerNode(id, first + k), id, n);
    }
  }

  lemma {:induction false} ConcatAvoids(pieces: seq<seq<int>>, id: int)
    requires Avoids(pieces, id)
    ensures id !in Concat(pieces)
  {
    if pieces != [] { ConcatAvoids(pieces[..|pieces| - 1], id); }
  }

  lemma OneServer(id: int)
    ensures ServersOf([ServerNode(id)]) == {id}
  {
    assert ServerNode(id) in [ServerNode(id)];
  }

  lemma AttachBoth(switchOf: map<int, int>, a: set<int>, b: set<int>, layer: nat)
    ensures AttachEdges(switchOf, a + b, layer) == AttachEdges(switchOf, a, layer) + AttachEdges(switchOf, b, layer)
  {
  }

  /** The links of the network as edges of one layer. */
  method AddLinks(links: Links, stage: nat) returns (g: Graph)
    ensures WellFormed(g) && g.edges == LinkEdges(links, stage)
  {
    g := Graph({}, {});
    var todo := links;
    while todo != {}
      invariant todo <= links && WellFormed(g) && g.edges == LinkEdges(links - todo, stage)
    {
      ghost var some := Member(todo);
      var l :| l in todo;
      assert links - (todo - {l}) == links - todo + {l};
      g := AddEdge(g, LayerNode(l.0, stage), LayerNode(l.1, stage));
      todo := todo - {l};
    }
    assert links - {} == links;
  }
}
