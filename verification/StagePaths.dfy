/** Paths through the layers of a service chain, and what splitting one by layers gives. */
module StagePaths {

  /** A node of the multi-layer graph: a network node in the layer of a stage. */
  datatype LayerNode = LayerNode(id: int, layer: nat)

  type LayerEdge = (LayerNode, LayerNode)

  datatype Graph = Graph(nodes: set<LayerNode>, edges: set<LayerEdge>)

  /** An edge leads from place `i` of a path to the next one. */
  ghost predicate EdgeAt(g: Graph, p: seq<LayerNode>, i: nat) {
    i + 1 < |p| && (p[i], p[i + 1]) in g.edges
  }

  ghost predicate IsPath(g: Graph, p: seq<LayerNode>, s: LayerNode, t: LayerNode) {
    && |p| > 0 && p[0] == s && p[|p| - 1] == t
    && (forall i | 0 <= i < |p| :: p[i] in g.nodes)
    && forall i | 0 <= i < |p| - 1 :: EdgeAt(g, p, i)
  }

  /** Every edge stays in its layer or leads a node of `hosts` to itself one layer up. */
  ghost predicate Layered(g: Graph, hosts: seq<set<int>>) {
    forall a, b | (a, b) in g.edges ::
      a.layer == b.layer || (a.layer < |hosts| && b == LayerNode(a.id, a.layer + 1) && a.id in hosts[a.layer])
  }

  function Ids(p: seq<LayerNode>): seq<int> {
    seq(|p|, i requires 0 <= i < |p| => p[i].id)
  }

  /** The ids of the nodes in one layer, in order. */
  function StageOf(p: seq<LayerNode>, stage: nat): seq<int> {
    if p == [] then []
    else StageOf(p[..|p| - 1], stage) + if p[|p| - 1].layer == stage then [p[|p| - 1].id] else []
  }

  ghost predicate Rising(p: seq<LayerNode>) {
    forall i, j | 0 <= i <= j < |p| :: p[i].layer <= p[j].layer
  }

  lemma {:induction false} PathRises(
    g: Graph, hosts: seq<set<int>>, p: seq<LayerNode>, s: LayerNode, t: LayerNode, i: nat, j: nat)
    requires IsPath(g, p, s, t) && Layered(g, hosts) && i <= j < |p|
    ensures p[i].layer <= p[j].layer
  {
    if i < j {
      PathRises(g, hosts, p, s, t, i, j - 1);
      assert EdgeAt(g, p, j - 1);
    }
  }

  lemma PathIsRising(g: Graph, hosts: seq<set<int>>, p: seq<LayerNode>, s: LayerNode, t: LayerNode)
    requires IsPath(g, p, s, t) && Layered(g, hosts)
    ensures Rising(p)
  {
    forall i, j | 0 <= i <= j < |p| ensures p[i].layer <= p[j].layer { PathRises(g, hosts, p, s, t, i, j); }
  }

  /** The nodes below the layer are the first `c` ones. */
  ghost predicate IsCut(p: seq<LayerNode>, layer: nat, c: nat) {
    && c <= |p|
    && (forall k | 0 <= k < c :: p[k].layer < layer)
    && (forall k | c <= k < |p| :: p[k].layer >= layer)
  }

  /** On a rising path the nodes below a layer come first. */
  lemma {:induction false} FindCut(p: seq<LayerNode>, layer: nat) returns (c: nat)
    requires Rising(p)
    ensures IsCut(p, layer, c)
    ensures p != [] && p[0].layer >= layer ==> c == 0
  {
    if p == [] || p[|p| - 1].layer < layer {
      c := |p|;
    } else {
      c := FindCut(p[..|p| - 1], layer);
    }
  }

  /** A stage is the piece of the path between two cuts. */
  lemma {:induction false} StageIsPiece(p: seq<LayerNode>, stage: nat, c: nat, d: nat)
    requires IsCut(p, stage, c) && IsCut(p, stage + 1, d)
    ensures c <= d && StageOf(p, stage) == Ids(p[c..d])
  {
    if p != [] {
      var n := |p| - 1;
      var q, x := p[..n], p[n];
      if x.layer < stage {
        StageIsPiece(q, stage, n, n);
      } else if x.layer == stage {
        StageIsPiece(q, stage, c, n);
        assert d == n + 1;
        assert p[c..d] == q[c..n] + [x];
      } else {
        StageIsPiece(q, stage, c, d);
        assert p[c..d] == q[c..d];
      }
    }
  }

  // ------------------------------------------------------------ what a split promises

  /** Consecutive nodes of the stage are joined by edges of its layer. */
  ghost predicate Joined(g: Graph, stage: seq<int>, layer: nat) {
    forall i | 0 <= i < |stage| - 1 :: JoinedAt(g, stage, layer, i)
  }

  ghost predicate JoinedAt(g: Graph, stage: seq<int>, layer: nat, i: nat) {
    i + 1 < |stage| && (LayerNode(stage[i], layer), LayerNode(stage[i + 1], layer)) in g.edges
  }

  /** No piece is empty, and each goes along edges of its layer. */
  ghost predicate AllJoined(g: Graph, pieces: seq<seq<int>>, first: nat) {
    forall i | 0 <= i < |pieces| :: |pieces[i]| > 0 && Joined(g, pieces[i], first + i)
  }

  /** One piece ends at a host of its stage, and the next one starts there. */
  ghost predicate Meets(host: set<int>, piece: seq<int>, next: seq<int>) {
    |piece| > 0 && |next| > 0 && piece[|piece| - 1] == next[0] && next[0] in host
  }

  ghost predicate AllMeet(hosts: seq<set<int>>, pieces: seq<seq<int>>, first: nat)
    requires first + |pieces| <= |hosts| + 1
  {
    forall i, j | 0 <= i < j < |pieces| && j == i + 1 :: Meets(hosts[first + i], pieces[i], pieces[j])
  }

  ghost predicate FromTo(pieces: seq<seq<int>>, from: int, to: int) {
    && |pieces| > 0 && |pieces[0]| > 0 && pieces[0][0] == from
    && var last := pieces[|pieces| - 1]; |last| > 0 && last[|last| - 1] == to
  }

  /** The pieces of a chain path from layer `first` up to the top: none is empty, each goes
      along edges of its layer, and each ends at a host of its stage, where the next starts. */
  ghost predicate IsChain(g: Graph, hosts: seq<set<int>>, pieces: seq<seq<int>>, first: nat, from: int, to: int) {
    && first + |pieces| == |hosts| + 1
    && AllJoined(g, pieces, first) && AllMeet(hosts, pieces, first) && FromTo(pieces, from, to)
  }

  function Concat(pieces: seq<seq<int>>): seq<int> {
    if pieces == [] then [] else Concat(pieces[..|pieces| - 1]) + pieces[|pieces| - 1]
  }

  function Pieces(p: seq<LayerNode>, first: nat, count: nat): seq<seq<int>> {
    seq(count, i requires 0 <= i < count => StageOf(p, first + i))
  }

  /** Every layer between the first and the last is met, and where a path enters a layer
      it stands on a host of the layer below. */
  lemma EnterLayer(g: Graph, hosts: seq<set<int>>, p: seq<LayerNode>, s: LayerNode, t: LayerNode, layer: nat, c: nat)
    requires IsPath(g, p, s, t) && Layered(g, hosts) && s.layer <= layer <= t.layer && IsCut(p, layer, c)
    ensures c < |p| && p[c].layer == layer
    ensures s.layer < layer ==>
      c > 0 && layer - 1 < |hosts| && p[c - 1] == LayerNode(p[c].id, layer - 1) && p[c].id in hosts[layer - 1]
  {
    if c > 0 { assert EdgeAt(g, p, c - 1); }
  }

  lemma PieceJoined(g: Graph, p: seq<LayerNode>, s: LayerNode, t: LayerNode, layer: nat, c: nat, d: nat)
    requires IsPath(g, p, s, t) && IsCut(p, layer, c) && IsCut(p, layer + 1, d) && c <= d
    ensures Joined(g, Ids(p[c..d]), layer)
  {
    var stage := Ids(p[c..d]);
    forall i | 0 <= i < |stage| - 1 ensures JoinedAt(g, stage, layer, i) {
      assert EdgeAt(g, p, c + i);
      assert p[c + i] == LayerNode(stage[i], layer) && p[c + i + 1] == LayerNode(stage[i + 1], layer);
    }
  }

  /** A stage that is met is not empty and goes along edges of its layer. */
  lemma PieceOfPath(g: Graph, hosts: seq<set<int>>, p: seq<LayerNode>, s: LayerNode, t: LayerNode, layer: nat)
    requires IsPath(g, p, s, t) && Layered(g, hosts) && Rising(p) && s.layer <= layer <= t.layer
    ensures |StageOf(p, layer)| > 0 && Joined(g, StageOf(p, layer), layer)
  {
    var c := FindCut(p, layer);
    var d := FindCut(p, layer + 1);
    EnterLayer(g, hosts, p, s, t, layer, c);
    StageIsPiece(p, layer, c, d);
    PieceJoined(g, p, s, t, layer, c, d);
  }

  lemma PiecesMeet(host: set<int>, p: seq<LayerNode>, a: nat, b: nat, c: nat)
    requires a < b < c <= |p| && p[b - 1].id == p[b].id && p[b].id in host
    ensures Meets(host, Ids(p[a..b]), Ids(p[b..c]))
  {
  }

  /** A stage ends where the next one starts, at a host of the stage. */
  lemma Seam(g: Graph, hosts: seq<set<int>>, p: seq<LayerNode>, s: LayerNode, t: LayerNode, layer: nat)
    requires IsPath(g, p, s, t) && Layered(g, hosts) && Rising(p) && s.layer <= layer < t.layer == |hosts|
    ensures Meets(hosts[layer], StageOf(p, layer), StageOf(p, layer + 1))
  {
    var a := FindCut(p, layer);
    var b := FindCut(p, layer + 1);
    var c := FindCut(p, layer + 2);
    StageIsPiece(p, layer, a, b);
    StageIsPiece(p, layer + 1, b, c);
    EnterLayer(g, hosts, p, s, t, layer, a);
    EnterLayer(g, hosts, p, s, t, layer + 1, b);
    PiecesMeet(hosts[layer], p, a, b, c);
  }

  /** The first stage starts and the last stage ends where the path does. */
  lemma OuterEnds(g: Graph, hosts: seq<set<int>>, p: seq<LayerNode>, s: LayerNode, t: LayerNode)
    requires IsPath(g, p, s, t) && Layered(g, hosts) && Rising(p)
    ensures var stage, last := StageOf(p, s.layer), StageOf(p, t.layer);
      |stage| > 0 && |last| > 0 && stage[0] == s.id && last[|last| - 1] == t.id
  {
    var d := FindCut(p, s.layer + 1);
    StageIsPiece(p, s.layer, 0, d);
    var c := FindCut(p, t.layer);
    StageIsPiece(p, t.layer, c, |p|);
  }

  /** Splitting a path by layers gives a chain. */
  lemma SplitIsChain(g: Graph, hosts: seq<set<int>>, p: seq<LayerNode>, s: LayerNode, t: LayerNode)
    requires IsPath(g, p, s, t) && Layered(g, hosts) && s.layer <= t.layer == |hosts|
    ensures IsChain(g, hosts, Pieces(p, s.layer, |hosts| + 1 - s.layer), s.layer, s.id, t.id)
  {
    PathIsRising(g, hosts, p, s, t);
    var first, n := s.layer, |hosts| + 1 - s.layer;
    var pieces := Pieces(p, first, n);
    assert AllJoined(g, pieces, first) by {
      forall i | 0 <= i < n ensures |pieces[i]| > 0 && Joined(g, pieces[i], first + i) {
        PieceOfPath(g, hosts, p, s, t, first + i);
      }
    }
    assert AllMeet(hosts, pieces, first) by {
      forall i, j | 0 <= i < j < n && j == i + 1 ensures Meets(hosts[first + i], pieces[i], pieces[j]) {
        Seam(g, hosts, p, s, t, first + i);
      }
    }
    assert FromTo(pieces, s.id, t.id) by { OuterEnds(g, hosts, p, s, t); }
  }

  lemma PiecesSnoc(p: seq<LayerNode>, first: nat, count: nat)
    ensures Pieces(p, first, count + 1)[..count] == Pieces(p, first, count)
  {
  }

  lemma ConcatLast(p: seq<LayerNode>, first: nat, count: nat)
    requires count > 0
    ensures Concat(Pieces(p, first, count)) == Concat(Pieces(p, first, count - 1)) + StageOf(p, first + count - 1)
  {
    PiecesSnoc(p, first, count - 1);
  }

  /** The pieces put together are the path up to a layer. */
  lemma {:induction false} ConcatPieces(p: seq<LayerNode>, first: nat, count: nat, d: nat)
    requires Rising(p) && |p| > 0 && p[0].layer == first
    requires IsCut(p, first + count, d) && (count == 0 ==> d == 0)
    ensures Concat(Pieces(p, first, count)) == Ids(p[..d])
  {
    if count > 0 {
      var layer := first + count - 1;
      var c := FindCut(p, layer);
      ConcatPieces(p, first, count - 1, c);
      ConcatLast(p, first, count);
      StageIsPiece(p, layer, c, d);
      IdsJoin(p, c, d);
    }
  }

  lemma IdsJoin(p: seq<LayerNode>, c: nat, d: nat)
    requires c <= d <= |p|
    ensures Ids(p[..d]) == Ids(p[..c]) + Ids(p[c..d])
  {
  }

  /** Splitting loses nothing: the pieces put together are the path. */
  lemma SplitLosesNothing(g: Graph, hosts: seq<set<int>>, p: seq<LayerNode>, s: LayerNode, t: LayerNode)
    requires IsPath(g, p, s, t) && Layered(g, hosts) && s.layer <= t.layer == |hosts|
    ensures Concat(Pieces(p, s.layer, |hosts| + 1 - s.layer)) == Ids(p)
  {
    PathIsRising(g, hosts, p, s, t);
    ConcatPieces(p, s.layer, |hosts| + 1 - s.layer, |p|);
    assert p[..|p|] == p;
  }

  /** Below the layer a path starts in there is nothing. */
  lemma {:induction false} EmptyBelow(p: seq<LayerNode>, first: nat, stage: nat)
    requires stage < first && forall i | 0 <= i < |p| :: p[i].layer >= first
    ensures StageOf(p, stage) == []
  {
    if p != [] { EmptyBelow(p[..|p| - 1], first, stage); }
  }

  /** A stage has no node that the path does not have. */
  lemma {:induction false} StageNodes(p: seq<LayerNode>, stage: nat, id: int)
    ensures id in StageOf(p, stage) <==> LayerNode(id, stage) in p
  {
    if p != [] {
      StageNodes(p[..|p| - 1], stage, id);
      assert p == p[..|p| - 1] + [p[|p| - 1]];
    }
  }

  // ------------------------------------------------------------ from a chain back to a path

  /** The nodes of a stage in its layer. */
  function Lift(stage: seq<int>, layer: nat): seq<LayerNode> {
    seq(|stage|, i requires 0 <= i < |stage| => LayerNode(stage[i], layer))
  }

  function LiftAll(pieces: seq<seq<int>>, first: nat): seq<LayerNode> {
    if pieces == [] then []
    else LiftAll(pieces[..|pieces| - 1], first) + Lift(pieces[|pieces| - 1], first + |pieces| - 1)
  }

  lemma {:induction false} LiftedIds(pieces: seq<seq<int>>, first: nat)
    ensures Ids(LiftAll(pieces, first)) == Concat(pieces) && |LiftAll(pieces, first)| == |Concat(pieces)|
  {
    if pieces != [] { LiftedIds(pieces[..|pieces| - 1], first); }
  }

  /** Edges go between nodes of the graph. */
  ghost predicate WellFormed(g: Graph) {
    forall e | e in g.edges :: e.0 in g.nodes && e.1 in g.nodes
  }

  /** Where a piece starts, an edge leads up from the layer below. */
  ghost predicate ClimbsTo(g: Graph, piece: seq<int>, below: nat) {
    |piece| > 0 && (LayerNode(piece[0], below), LayerNode(piece[0], below + 1)) in g.edges
  }

  ghost predicate AllClimb(g: Graph, pieces: seq<seq<int>>, first: nat) {
    forall i | 1 <= i < |pieces| :: ClimbsTo(g, pieces[i], first + i - 1)
  }

  /** A stage that goes along edges of its layer is a path there. */
  lemma LiftIsPath(g: Graph, stage: seq<int>, layer: nat)
    requires WellFormed(g) && |stage| > 0 && Joined(g, stage, layer) && LayerNode(stage[0], layer) in g.nodes
    ensures IsPath(g, Lift(stage, layer), LayerNode(stage[0], layer), LayerNode(stage[|stage| - 1], layer))
  {
    var p := Lift(stage, layer);
    forall i | 0 <= i < |p| - 1 ensures EdgeAt(g, p, i) && p[i + 1] in g.nodes {
      assert JoinedAt(g, stage, layer, i);
    }
    forall i | 0 <= i < |p| ensures p[i] in g.nodes {
      if i > 0 { assert EdgeAt(g, p, i - 1); }
    }
  }

  lemma PathsJoin(g: Graph, p: seq<LayerNode>, s: LayerNode, a: LayerNode, q: seq<LayerNode>, b: LayerNode, t: LayerNode)
    requires IsPath(g, p, s, a) && IsPath(g, q, b, t) && (a, b) in g.edges
    ensures IsPath(g, p + q, s, t)
  {
    var r := p + q;
    forall i | 0 <= i < |r| - 1 ensures EdgeAt(g, r, i) {
      if i < |p| - 1 {
        assert EdgeAt(g, p, i);
      } else if i >= |p| {
        assert EdgeAt(g, q, i - |p|);
      }
    }
  }

  /** The pieces are not empty, go along edges of their layers, and one climbs to the next. */
  ghost predicate Climbing(g: Graph, hosts: seq<set<int>>, pieces: seq<seq<int>>, first: nat) {
    && first + |pieces| <= |hosts| + 1 && |pieces| > 0 && AllJoined(g, pieces, first)
    && AllMeet(hosts, pieces, first) && AllClimb(g, pieces, first)
  }

  lemma ClimbingShorter(g: Graph, hosts: seq<set<int>>, pieces: seq<seq<int>>, first: nat)
    requires Climbing(g, hosts, pieces, first) && |pieces| > 1
    ensures Climbing(g, hosts, pieces[..|pieces| - 1], first)
  {
    var n := |pieces| - 1;
    var fewer := pieces[..n];
    forall i | 0 <= i < n ensures |fewer[i]| > 0 && Joined(g, fewer[i], first + i) { assert fewer[i] == pieces[i]; }
    forall i, j | 0 <= i < j < n && j == i + 1 ensures Meets(hosts[first + i], fewer[i], fewer[j]) {
      assert Meets(hosts[first + i], pieces[i], pieces[j]);
    }
    forall i | 1 <= i < n ensures ClimbsTo(g, fewer[i], first + i - 1) { assert fewer[i] == pieces[i]; }
  }

  function LastOf(pieces: seq<seq<int>>): int
    requires |pieces| > 0 && |pieces[|pieces| - 1]| > 0
  {
    pieces[|pieces| - 1][|pieces[|pieces| - 1]| - 1]
  }

  /** A path through all pieces but the last one goes on through the last one. */
  lemma OnePieceMore(g: Graph, hosts: seq<set<int>>, pieces: seq<seq<int>>, first: nat, p: seq<LayerNode>)
    requires WellFormed(g) && Climbing(g, hosts, pieces, first) && |pieces| > 1
    requires var n := |pieces| - 1;
      && |pieces[n - 1]| > 0
      && IsPath(g, p, LayerNode(pieces[0][0], first), LayerNode(LastOf(pieces[..n]), first + n - 1))
    ensures var n := |pieces| - 1;
      && |pieces[n]| > 0
      && IsPath(g, p + Lift(pieces[n], first + n), LayerNode(pieces[0][0], first), LayerNode(LastOf(pieces), first + n))
  {
    var n := |pieces| - 1;
    var last, layer := pieces[n], first + n;
    assert |last| > 0 && Joined(g, last, layer);
    assert Meets(hosts[first + (n - 1)], pieces[n - 1], last);
    assert ClimbsTo(g, last, first + n - 1);
    LiftIsPath(g, last, layer);
    PathsJoin(g, p, LayerNode(pieces[0][0], first), LayerNode(last[0], first + (n - 1)),
      Lift(last, layer), LayerNode(last[0], layer), LayerNode(LastOf(pieces), layer));
  }

  /** Put together in their layers, the pieces of a chain are a path. */
  lemma {:induction false} ChainIsPath(g: Graph, hosts: seq<set<int>>, pieces: seq<seq<int>>, first: nat)
    requires WellFormed(g) && Climbing(g, hosts, pieces, first) && LayerNode(pieces[0][0], first) in g.nodes
    ensures |pieces[|pieces| - 1]| > 0
    ensures IsPath(g, LiftAll(pieces, first), LayerNode(pieces[0][0], first),
                   LayerNode(LastOf(pieces), first + |pieces| - 1))
    decreases |pieces|
  {
    var n := |pieces| - 1;
    var last, layer := pieces[n], first + n;
    assert |last| > 0 && Joined(g, last, layer);
    if n == 0 {
      LiftIsPath(g, last, layer);
      assert pieces[..n] == [] && LiftAll(pieces, first) == [] + Lift(last, layer) == Lift(last, layer);
    } else {
      ClimbingShorter(g, hosts, pieces, first);
      ChainIsPath(g, hosts, pieces[..n], first);
      OnePieceMore(g, hosts, pieces, first, LiftAll(pieces[..n], first));
    }
  }
}
