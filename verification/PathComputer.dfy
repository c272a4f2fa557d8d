/** Computing the forwarding paths of a chain: the multi-layer graph, the primary path split
    into stages, and a backup path around every node of it. The search for a shortest path is
    given to the object and keeps its contract. */
module PathComputers {
  import opened Nodes
  import opened Tries
  import opened Sets
  import opened StagePaths
  import opened LayerGraphs
  import opened BackupNumbers

  type Search = (Graph, LayerNode, LayerNode) -> Option<seq<LayerNode>>

  class PathComputer {
    const links: Links
    const switchOf: map<int, int>
    const vnfiSequence: seq<seq<Node>>
    const ingress: int
    const egress: int
    const search: Search
    var multiLayerGraph: Graph
    var primaryFP: seq<seq<int>>

    constructor (
      links: Links, switchOf: map<int, int>, vnfiSequence: seq<seq<Node>>, ingress: int, egress: int, search: Search)
      ensures this.links == links && this.switchOf == switchOf && this.vnfiSequence == vnfiSequence
      ensures this.ingress == ingress && this.egress == egress && this.search == search
    {
      this.links, this.switchOf, this.vnfiSequence := links, switchOf, vnfiSequence;
      this.ingress, this.egress, this.search := ingress, egress, search;
    }

    /** What the library promises: a shortest path, if there is one. */
    ghost predicate Finds() {
      forall g, s, t :: Found(g, s, t)
    }

    ghost predicate Found(g: Graph, s: LayerNode, t: LayerNode) {
      && (search(g, s, t).Some? ==> IsPath(g, search(g, s, t).value, s, t))
      && forall q | IsPath(g, q, s, t) :: search(g, s, t).Some? && |search(g, s, t).value| <= |q|
    }

    // ---------------------------------------------------------- the network, layer by layer

    /** The layer needs the server: the bottom one the ingress, the top one the egress, and
        each the hosts of the stage before it and of the stage after it. */
    predicate Needed(id: int, layer: int) {
      || (layer == 0 && id == ingress)
      || (layer == |vnfiSequence| && id == egress)
      || (0 <= layer < |vnfiSequence| && ServerNode(id) in vnfiSequence[layer])
      || (0 < layer <= |vnfiSequence| && ServerNode(id) in vnfiSequence[layer - 1])
    }

    predicate Attached(server: int, switch: int, layer: int) {
      Needed(server, layer) && server in switchOf && switchOf[server] == switch
    }

    /** In this layer one can go from `a` to `b`: over a link of the network, or between a
        server the layer needs and its switch. */
    predicate Walkable(a: int, b: int, layer: int) {
      0 <= layer <= |vnfiSequence| && ((a, b) in links || Attached(a, b, layer) || Attached(b, a, layer))
    }

    /** A function of this stage runs on the node. */
    predicate IsHost(id: int, stage: int) {
      0 <= stage < |vnfiSequence| && exists v :: v in vnfiSequence[stage] && v.id == id
    }

    /** The edge stays in its layer and is walkable, or leads a host one layer up. */
    predicate IsEdge(e: LayerEdge) {
      || (e.0.layer == e.1.layer && Walkable(e.0.id, e.1.id, e.0.layer))
      || (e.1 == LayerNode(e.0.id, e.0.layer + 1) && IsHost(e.0.id, e.0.layer))
    }

    /** A way through the network from `from`, in the stages from `first` on, to the egress:
        each piece walks through its layer and ends at a host of its stage, where the next
        piece starts. */
    ghost predicate IsTour(pieces: seq<seq<int>>, first: nat, from: int) {
      && pieces != [] && first + |pieces| == |vnfiSequence| + 1
      && (forall k | 0 <= k < |pieces| :: IsWalk(pieces[k], first + k))
      && (forall k, m | 0 <= k < m < |pieces| && m == k + 1 :: Changes(pieces[k], pieces[m], first + k))
      && pieces[0][0] == from && pieces[|pieces| - 1][|pieces[|pieces| - 1]| - 1] == egress
    }

    ghost predicate IsWalk(piece: seq<int>, layer: int) {
      piece != [] && forall i, j | 0 <= i < j < |piece| && j == i + 1 :: Walkable(piece[i], piece[j], layer)
    }

    /** The piece ends at a host of the stage, and there the next one starts. */
    ghost predicate Changes(piece: seq<int>, next: seq<int>, stage: int) {
      piece != [] && next != [] && piece[|piece| - 1] == next[0] && IsHost(next[0], stage)
    }

    /** Every server that a layer needs has a switch. */
    ghost predicate AllAttached() {
      forall s | 0 <= s <= |vnfiSequence| :: LayerAttached(s)
    }

    ghost predicate LayerAttached(stage: int) {
      forall id | Needed(id, stage) :: id in switchOf
    }

    /** The servers of the request: where it enters, where it leaves, and its hosts. */
    ghost predicate EveryServerHasSwitch() {
      && ingress in switchOf && egress in switchOf
      && forall k, v | 0 <= k < |vnfiSequence| && v in vnfiSequence[k] && v.ServerNode? :: v.id in switchOf
    }

    lemma SwitchesForAll()
      ensures AllAttached() <==> EveryServerHasSwitch()
    {
      if AllAttached() {
        assert LayerAttached(0) && Needed(ingress, 0);
        assert LayerAttached(|vnfiSequence|) && Needed(egress, |vnfiSequence|);
        forall k, v | 0 <= k < |vnfiSequence| && v in vnfiSequence[k] && v.ServerNode? ensures v.id in switchOf {
          assert LayerAttached(k) && Needed(v.id, k);
        }
      }
    }

    /** The field holds the multi-layer graph: these edges and no others. */
    ghost predicate Built()
      reads this`multiLayerGraph
    {
      WellFormed(multiLayerGraph) && forall e :: e in multiLayerGraph.edges <==> IsEdge(e)
    }

    function Hosts(): (h: seq<set<int>>) {
      seq(|vnfiSequence|, i requires 0 <= i < |vnfiSequence| => HostsOf(vnfiSequence[i]))
    }

    lemma BuiltIsLayered()
      requires Built()
      ensures Layered(multiLayerGraph, Hosts())
    {
      forall a, b | (a, b) in multiLayerGraph.edges
        ensures a.layer == b.layer
          || (a.layer < |Hosts()| && b == LayerNode(a.id, a.layer + 1) && a.id in Hosts()[a.layer])
      {
        assert IsEdge((a, b));
      }
    }

    // ---------------------------------------------------------- building the graph

    /** Joins the servers of a stage with their switches; `ok` is false where the source
        raises because a server has no switch. */
    method AddEdgeSwitch2Server(g: Graph, vnfiList: seq<Node>, layer: nat) returns (r: Graph, ok: bool)
      requires WellFormed(g)
      ensures ok <==> ServersOf(vnfiList) <= switchOf.Keys
      ensures ok ==> WellFormed(r) && r.edges == g.edges + AttachEdges(switchOf, ServersOf(vnfiList), layer)
    {
      r := g;
      for n := 0 to |vnfiList|
        invariant WellFormed(r) && ServersOf(vnfiList[..n]) <= switchOf.Keys
        invariant r.edges == g.edges + AttachEdges(switchOf, ServersOf(vnfiList[..n]), layer)
      {
        var node := vnfiList[n];
        ServersMore(vnfiList, n);
        if node.ServerNode? {
          if node.id !in switchOf {
            return r, false;
          }
          AttachMore(switchOf, ServersOf(vnfiList[..n]), node.id, layer);
          var a, b := LayerNode(node.id, layer), LayerNode(switchOf[node.id], layer);
          r := AddEdge(AddEdge(r, a, b), b, a);
        }
      }
      assert vnfiList[..|vnfiList|] == vnfiList;
      ok := true;
    }

    /** The edge belongs to the graph of the layer. */
    ghost predicate InLayer(e: LayerEdge, stage: int) {
      e.0.layer == e.1.layer == stage && Walkable(e.0.id, e.1.id, stage)
    }

    /** The graph of one layer; `ok` is false where a server it needs has no switch. */
    method GenOneLayer(stage: nat) returns (g: Graph, ok: bool)
      requires stage <= |vnfiSequence|
      ensures ok <==> LayerAttached(stage)
      ensures ok ==> WellFormed(g) && forall e :: e in g.edges <==> InLayer(e, stage)
    {
      g := AddLinks(links, stage);
      OneServer(ingress);
      OneServer(egress);
      var lower := if stage != 0 then vnfiSequence[stage - 1] else [ServerNode(ingress)];
      var upper := if stage != |vnfiSequence| then vnfiSequence[stage] else [ServerNode(egress)];
      NeededServers(lower, upper, stage);
      g, ok := AddEdgeSwitch2Server(g, lower, stage);
      if ok {
        g, ok := AddEdgeSwitch2Server(g, upper, stage);
        LayerEdges(ServersOf(lower), ServersOf(upper), stage);
      }
    }

    lemma NeededServers(lower: seq<Node>, upper: seq<Node>, stage: nat)
      requires stage <= |vnfiSequence|
      requires lower == if stage != 0 then vnfiSequence[stage - 1] else [ServerNode(ingress)]
      requires upper == if stage != |vnfiSequence| then vnfiSequence[stage] else [ServerNode(egress)]
      ensures forall id :: Needed(id, stage) <==> id in ServersOf(lower) + ServersOf(upper)
    {
      forall id ensures Needed(id, stage) <==> ServerNode(id) in lower || ServerNode(id) in upper {}
      forall id ensures id in ServersOf(lower) <==> ServerNode(id) in lower { ServerIn(lower, id); }
      forall id ensures id in ServersOf(upper) <==> ServerNode(id) in upper { ServerIn(upper, id); }
    }

    lemma LayerEdges(lower: set<int>, upper: set<int>, stage: nat)
      requires stage <= |vnfiSequence| && forall id :: Needed(id, stage) <==> id in lower + upper
      ensures forall e ::
        e in LinkEdges(links, stage) + AttachEdges(switchOf, lower, stage) + AttachEdges(switchOf, upper, stage)
        <==> InLayer(e, stage)
    {
      AttachBoth(switchOf, lower, upper, stage);
      forall e: LayerEdge
        ensures e in LinkEdges(links, stage) <==> e.0.layer == e.1.layer == stage && (e.0.id, e.1.id) in links
      {
        LinkEdge(links, stage, e);
      }
      forall e: LayerEdge
        ensures e in AttachEdges(switchOf, lower + upper, stage) <==>
          e.0.layer == e.1.layer == stage && (Attached(e.0.id, e.1.id, stage) || Attached(e.1.id, e.0.id, stage))
      {
        AttachEdge(switchOf, lower + upper, stage, e);
      }
    }

    /** The edge leads from a host of a stage below `n` to itself one layer up. */
    ghost predicate Climbs(e: LayerEdge, n: nat) {
      e.0.layer < n && e.1 == LayerNode(e.0.id, e.0.layer + 1) && IsHost(e.0.id, e.0.layer)
    }

    /** Joins each host with itself one layer up. */
    method ConnectLayers(g: Graph) returns (r: Graph)
      requires WellFormed(g)
      ensures WellFormed(r)
      ensures forall e :: e in r.edges <==> e in g.edges || Climbs(e, |vnfiSequence|)
    {
      r := g;
      for stage := 0 to |vnfiSequence|
        invariant WellFormed(r)
        invariant forall e :: e in r.edges <==> e in g.edges || Climbs(e, stage)
      {
        r := ConnectOne(r, stage);
        CrossIsClimb(stage);
      }
    }

    lemma CrossIsClimb(stage: nat)
      requires stage < |vnfiSequence|
      ensures forall e :: e in CrossEdges(vnfiSequence[stage], stage) <==>
        e.0.layer == stage && e.1 == LayerNode(e.0.id, stage + 1) && IsHost(e.0.id, stage)
    {
    }

    method ConnectOne(g: Graph, stage: nat) returns (r: Graph)
      requires WellFormed(g) && stage < |vnfiSequence|
      ensures WellFormed(r) && r.edges == g.edges + CrossEdges(vnfiSequence[stage], stage)
    {
      r := g;
      var vnfiList := vnfiSequence[stage];
      for n := 0 to |vnfiList|
        invariant WellFormed(r) && r.edges == g.edges + CrossEdges(vnfiList[..n], stage)
      {
        assert vnfiList[..n + 1] == vnfiList[..n] + [vnfiList[n]];
        r := AddEdge(r, LayerNode(vnfiList[n].id, stage), LayerNode(vnfiList[n].id, stage + 1));
      }
      assert vnfiList[..|vnfiList|] == vnfiList;
    }

    /** The edge is one of the graphs of the layers below `n`. */
    ghost predicate IsBelow(e: LayerEdge, n: nat) {
      e.0.layer < n && InLayer(e, e.0.layer)
    }

    method ComposeLayers() returns (g: Graph, ok: bool)
      ensures ok <==> AllAttached()
      ensures ok ==> WellFormed(g)
      ensures ok ==> forall e :: e in g.edges <==> IsBelow(e, |vnfiSequence| + 1)
    {
      g := Graph({}, {});
      for stage := 0 to |vnfiSequence| + 1
        invariant WellFormed(g) && forall s | 0 <= s < stage :: LayerAttached(s)
        invariant forall e :: e in g.edges <==> IsBelow(e, stage)
      {
        var layer, attached := GenOneLayer(stage);
        if !attached {
          return g, false;
        }
        g := Graph(g.nodes + layer.nodes, g.edges + layer.edges);
      }
      ok := true;
    }

    /** Builds the multi-layer graph; `ok` is false where the source raises because a server
        has no switch. */
    method GenMultiLayerGraph() returns (ok: bool)
      modifies this`multiLayerGraph
      ensures ok <==> EveryServerHasSwitch()
      ensures if ok then Built() else multiLayerGraph == old(multiLayerGraph)
    {
      var g: Graph;
      SwitchesForAll();
      g, ok := ComposeLayers();
      if ok {
        multiLayerGraph := ConnectLayers(g);
        assert forall e :: IsEdge(e) <==> IsBelow(e, |vnfiSequence| + 1) || Climbs(e, |vnfiSequence|);
      }
    }

    // ---------------------------------------------------------- splitting

    /** Sorts the nodes of a path into stages. */
    method SortIntoStages(path: seq<LayerNode>) returns (multiStagePath: seq<seq<int>>)
      requires forall i | 0 <= i < |path| :: path[i].layer <= |vnfiSequence|
      ensures |multiStagePath| == |vnfiSequence| + 1
      ensures forall s | 0 <= s < |multiStagePath| :: multiStagePath[s] == StageOf(path, s)
    {
      multiStagePath := seq(|vnfiSequence| + 1, i => []);
      for index := 0 to |path|
        invariant |multiStagePath| == |vnfiSequence| + 1
        invariant forall s | 0 <= s < |multiStagePath| :: multiStagePath[s] == StageOf(path[..index], s)
      {
        var stage := path[index].layer;
        assert path[..index + 1][..index] == path[..index];
        multiStagePath := multiStagePath[stage := multiStagePath[stage] + [path[index].id]];
      }
      assert path[..|path|] == path;
    }

    /** Sorts the nodes of a path into stages and writes single nodes twice. */
    method TransPath2MultiStagePath(path: seq<LayerNode>) returns (multiStagePath: seq<seq<int>>)
      requires forall i | 0 <= i < |path| :: path[i].layer <= |vnfiSequence|
      ensures |multiStagePath| == |vnfiSequence| + 1
      ensures forall s | 0 <= s < |multiStagePath| :: multiStagePath[s] == Padded(StageOf(path, s))
    {
      multiStagePath := SortIntoStages(path);
      ghost var sorted := multiStagePath;
      for index := 0 to |multiStagePath|
        invariant |multiStagePath| == |sorted|
        invariant forall s | 0 <= s < index :: multiStagePath[s] == Padded(sorted[s])
        invariant forall s | index <= s < |sorted| :: multiStagePath[s] == sorted[s]
      {
        if |multiStagePath[index]| == 1 {
          multiStagePath := multiStagePath[index := multiStagePath[index] + [multiStagePath[index][0]]];
        }
      }
    }

    /** Removes the empty stages, one by one. */
    method PruneNullListInMultiStagePath(path: seq<seq<int>>) returns (mSPath: seq<seq<int>>)
      ensures mSPath == NonEmpty(path)
    {
      mSPath := path;
      while [] in mSPath
        invariant NonEmpty(mSPath) == NonEmpty(path)
        decreases |mSPath|
      {
        var i := 0;
        while mSPath[i] != []
          invariant i < |mSPath| && forall j | 0 <= j < i :: mSPath[j] != []
          decreases |mSPath| - i
        {
          i := i + 1;
        }
        NonEmptyWithout(mSPath, i);
        mSPath := mSPath[..i] + mSPath[i + 1..];
      }
      NonEmptyAll(mSPath);
    }

    /** Removes a network node from every layer. */
    method DeleteNodeInMLG(g: Graph, id: int) returns (r: Graph)
      requires WellFormed(g)
      ensures r == Without(g, id, |vnfiSequence| + 1)
    {
      r := g;
      WithoutNone(g, id);
      for stage := 0 to |vnfiSequence| + 1
        invariant r == Without(g, id, stage)
      {
        WithoutMore(g, id, stage);
        r := RemoveNode(r, LayerNode(id, stage));
      }
    }

    // ---------------------------------------------------------- the two kinds of paths

    /** The stages, padded, of the path `p`: a chain through `g` from layer `first` up to the
        egress that put together gives the path. */
    ghost predicate IsStagePath(g: Graph, p: seq<LayerNode>, value: seq<seq<int>>, first: nat, from: int) {
      exists pieces :: value == PadAll(pieces)
        && IsChain(g, Hosts(), pieces, first, from, egress) && Concat(pieces) == Ids(p)
    }

    /** The egress in the top layer. */
    function Top(): LayerNode {
      LayerNode(egress, |vnfiSequence|)
    }

    /** The stages are the path's, single nodes written twice. */
    ghost predicate AreStages(p: seq<LayerNode>, stages: seq<seq<int>>) {
      |stages| == |vnfiSequence| + 1 && forall i | 0 <= i < |stages| :: stages[i] == Padded(StageOf(p, i))
    }

    /** A split of a found path is a chain from its first layer on. */
    lemma SplitFound(g: Graph, p: seq<LayerNode>, s: LayerNode, stages: seq<seq<int>>)
      requires Layered(g, Hosts()) && s.layer <= |vnfiSequence| && IsPath(g, p, s, Top()) && AreStages(p, stages)
      ensures IsStagePath(g, p, stages[s.layer..], s.layer, s.id)
    {
      var pieces := Pieces(p, s.layer, |vnfiSequence| + 1 - s.layer);
      SplitIsChain(g, Hosts(), p, s, Top());
      SplitLosesNothing(g, Hosts(), p, s, Top());
      SplitPadded(p, s.layer, |vnfiSequence| + 1, stages);
    }

    /** The stages of a found path are empty exactly below its first layer. */
    lemma SplitPruned(g: Graph, p: seq<LayerNode>, s: LayerNode, stages: seq<seq<int>>)
      requires Layered(g, Hosts()) && s.layer <= |vnfiSequence| && IsPath(g, p, s, Top()) && AreStages(p, stages)
      ensures NonEmpty(stages) == stages[s.layer..]
    {
      PathIsRising(g, Hosts(), p, s, Top());
      forall i | 0 <= i < s.layer ensures stages[i] == [] { EmptyBelow(p, s.layer, i); }
      forall i | s.layer <= i < |stages| ensures stages[i] != [] {
        PieceOfPath(g, Hosts(), p, s, Top(), i);
      }
      NonEmptySuffix(stages, s.layer);
    }

    /** Finds a path to the egress and splits it; `None` where the search finds none. */
    method GenMultiStagePath(g: Graph, start: LayerNode) returns (r: Option<seq<seq<int>>>)
      requires Finds() && Layered(g, Hosts()) && start.layer <= |vnfiSequence|
      ensures var found := search(g, start, Top());
        && (r.Some? <==> found.Some?)
        && (r.Some? ==>
          && |r.value| == |vnfiSequence| + 1
          && IsStagePath(g, found.value, r.value[start.layer..], start.layer, start.id)
          && NonEmpty(r.value) == r.value[start.layer..])
      ensures r.Some? ==> forall i, id | 0 <= i < |r.value| && id in r.value[i] :: LayerNode(id, i) in g.nodes
    {
      var egressIDInMLG := Top();
      var path := search(g, start, egressIDInMLG);
      assert Found(g, start, egressIDInMLG);
      if path == None {
        return None;
      }
      forall i | 0 <= i < |path.value| ensures path.value[i].layer <= |vnfiSequence| {
        PathRises(g, Hosts(), path.value, start, egressIDInMLG, i, |path.value| - 1);
      }
      var stages := TransPath2MultiStagePath(path.value);
      SplitFound(g, path.value, start, stages);
      SplitPruned(g, path.value, start, stages);
      forall i, id | 0 <= i < |stages| && id in stages[i] ensures LayerNode(id, i) in g.nodes {
        StageNodes(path.value, i, id);
      }
      return Some(stages);
    }

    /** The pieces are a chain through the multi-layer graph from `from` in layer `first` to
        the egress. */
    ghost predicate ChainFrom(pieces: seq<seq<int>>, first: nat, from: int)
      reads this`multiLayerGraph
    {
      IsChain(multiLayerGraph, Hosts(), pieces, first, from, egress)
    }

    lemma WalkIsJoined(piece: seq<int>, layer: nat)
      requires Built()
      ensures IsWalk(piece, layer) <==> |piece| > 0 && Joined(multiLayerGraph, piece, layer)
    {
      forall i | 0 <= i < |piece| - 1
        ensures JoinedAt(multiLayerGraph, piece, layer, i) <==> Walkable(piece[i], piece[i + 1], layer)
      {
        assert IsEdge((LayerNode(piece[i], layer), LayerNode(piece[i + 1], layer)))
          <==> Walkable(piece[i], piece[i + 1], layer);
      }
      if |piece| > 0 && Joined(multiLayerGraph, piece, layer) {
        forall i, j | 0 <= i < j < |piece| && j == i + 1 ensures Walkable(piece[i], piece[j], layer) {
          assert JoinedAt(multiLayerGraph, piece, layer, i);
        }
      }
    }

    /** The chains through the multi-layer graph are the tours of the network. */
    lemma ChainIsTour(pieces: seq<seq<int>>, first: nat, from: int)
      requires Built()
      ensures ChainFrom(pieces, first, from) <==> IsTour(pieces, first, from)
    {
      forall k | 0 <= k < |pieces|
        ensures IsWalk(pieces[k], first + k) <==> |pieces[k]| > 0 && Joined(multiLayerGraph, pieces[k], first + k)
      {
        WalkIsJoined(pieces[k], first + k);
      }
      forall k | 0 <= k < |pieces| - 1 && first + |pieces| == |vnfiSequence| + 1
        ensures Changes(pieces[k], pieces[k + 1], first + k) <==> Meets(Hosts()[first + k], pieces[k], pieces[k + 1])
      {
      }
    }

    /** In the multi-layer graph a host of a stage has an edge to itself one layer up. */
    lemma HostsClimb(stage: nat, id: int)
      requires Built() && stage < |vnfiSequence| && id in Hosts()[stage]
      ensures (LayerNode(id, stage), LayerNode(id, stage + 1)) in multiLayerGraph.edges
    {
      var e := (LayerNode(id, stage), LayerNode(id, stage + 1));
      assert IsEdge(e);
    }

    lemma PieceClimbs(piece: seq<int>, next: seq<int>, stage: nat)
      requires Built() && stage < |vnfiSequence| && Meets(Hosts()[stage], piece, next)
      ensures ClimbsTo(multiLayerGraph, next, stage)
    {
      HostsClimb(stage, next[0]);
    }

    lemma ChainClimbs(pieces: seq<seq<int>>, first: nat, from: int)
      requires Built() && ChainFrom(pieces, first, from)
      ensures Climbing(multiLayerGraph, Hosts(), pieces, first)
    {
      forall i | 1 <= i < |pieces| ensures ClimbsTo(multiLayerGraph, pieces[i], first + i - 1) {
        var k := i - 1;
        PieceClimbs(pieces[k], pieces[i], first + k);
      }
    }

    /** A chain is a path of the graph with as many nodes. */
    lemma ChainHasPath(pieces: seq<seq<int>>, first: nat, from: int)
      requires Built() && ChainFrom(pieces, first, from) && LayerNode(from, first) in multiLayerGraph.nodes
      ensures IsPath(multiLayerGraph, LiftAll(pieces, first), LayerNode(from, first), Top())
      ensures |LiftAll(pieces, first)| == |Concat(pieces)|
    {
      ChainClimbs(pieces, first, from);
      ChainIsPath(multiLayerGraph, Hosts(), pieces, first);
      LiftedIds(pieces, first);
    }

    lemma IngressThere()
      requires Built() && EveryServerHasSwitch()
      ensures LayerNode(ingress, 0) in multiLayerGraph.nodes
    {
      assert Attached(ingress, switchOf[ingress], 0);
      var e := (LayerNode(ingress, 0), LayerNode(switchOf[ingress], 0));
      assert IsEdge(e);
    }

    /** No chain is shorter than a shortest path, and without a path there is none. */
    lemma ChainsAreLonger(found: Option<seq<LayerNode>>)
      requires Built() && EveryServerHasSwitch() && Finds()
      requires found == search(multiLayerGraph, LayerNode(ingress, 0), Top())
      ensures forall other | ChainFrom(other, 0, ingress) :: found.Some? && |found.value| <= |Concat(other)|
    {
      IngressThere();
      assert Found(multiLayerGraph, LayerNode(ingress, 0), Top());
      forall other | ChainFrom(other, 0, ingress) ensures found.Some? && |found.value| <= |Concat(other)| {
        ChainHasPath(other, 0, ingress);
      }
    }

    /** Single nodes are written twice. */
    ghost predicate IsPadding(stages: seq<seq<int>>, pieces: seq<seq<int>>) {
      && |stages| == |pieces|
      && forall k | 0 <= k < |pieces| ::
           if |pieces[k]| == 1 then stages[k] == [pieces[k][0], pieces[k][0]] else stages[k] == pieces[k]
    }

    /** The stages are those of a tour from the ingress, and none has fewer nodes. */
    ghost predicate IsShortest(stages: seq<seq<int>>) {
      exists pieces :: IsPadding(stages, pieces) && IsTour(pieces, 0, ingress)
        && forall other | IsTour(other, 0, ingress) :: |Concat(pieces)| <= |Concat(other)|
    }

    /** Every node of a stage is in the layer of the stage. */
    ghost predicate Inside(stages: seq<seq<int>>)
      reads this`multiLayerGraph
    {
      forall s, id | 0 <= s < |stages| && id in stages[s] :: LayerNode(id, s) in multiLayerGraph.nodes
    }

    ghost predicate SomeTour() {
      exists pieces :: IsTour(pieces, 0, ingress)
    }

    lemma FoundIsShortest(p: seq<LayerNode>, stages: seq<seq<int>>)
      requires Built() && IsStagePath(multiLayerGraph, p, stages, 0, ingress)
      requires forall other | ChainFrom(other, 0, ingress) :: |p| <= |Concat(other)|
      ensures IsShortest(stages) && SomeTour()
    {
      var pieces :| stages == PadAll(pieces)
        && IsChain(multiLayerGraph, Hosts(), pieces, 0, ingress, egress) && Concat(pieces) == Ids(p);
      assert ChainFrom(pieces, 0, ingress) && |Concat(pieces)| == |p|;
      ChainIsTour(pieces, 0, ingress);
      assert IsPadding(stages, pieces);
      forall other | IsTour(other, 0, ingress) ensures |Concat(pieces)| <= |Concat(other)| {
        ChainIsTour(other, 0, ingress);
      }
    }

    /** Finds the primary path in the graph. */
    method FindPrimary() returns (r: Option<seq<seq<int>>>)
      requires Finds() && Built() && EveryServerHasSwitch()
      ensures r.Some? <==> SomeTour()
      ensures r.Some? ==> |r.value| == |vnfiSequence| + 1 && IsShortest(r.value) && Inside(r.value)
    {
      BuiltIsLayered();
      ghost var found := search(multiLayerGraph, LayerNode(ingress, 0), Top());
      ChainsAreLonger(found);
      r := GenMultiStagePath(multiLayerGraph, LayerNode(ingress, 0));
      if r.Some? {
        assert r.value[0..] == r.value;
        FoundIsShortest(found.value, r.value);
      } else if SomeTour() {
        var pieces :| IsTour(pieces, 0, ingress);
        ChainIsTour(pieces, 0, ingress);
        assert false;
      }
    }

    /** Builds the graph and maps the primary path: a shortest tour.  `ok` is false where the
        source raises: a server has no switch, or there is no tour. */
    method MapPrimaryFP() returns (ok: bool)
      requires Finds()
      modifies this
      ensures ok <==> EveryServerHasSwitch() && SomeTour()
      ensures ok ==> Built() && |primaryFP| == |vnfiSequence| + 1 && IsShortest(primaryFP) && Inside(primaryFP)
    {
      ok := GenMultiLayerGraph();
      if !ok {
        return;
      }
      var stages := FindPrimary();
      if stages == None {
        return false;
      }
      primaryFP := stages.value;
    }

    // ---------------------------------------------------------- when the network suffices

    /** The walk follows links of the network. */
    ghost predicate FollowsLinks(walk: seq<int>, a: int, b: int) {
      && walk != [] && walk[0] == a && walk[|walk| - 1] == b
      && forall i, j | 0 <= i < j < |walk| && j == i + 1 :: (walk[i], walk[j]) in links
    }

    /** Where a node meets the links: a server at its switch, a switch where it is. */
    function Port(v: Node): int
      requires v.ServerNode? ==> v.id in switchOf
    {
      if v.ServerNode? then switchOf[v.id] else v.id
    }

    /** Where stage `k` of a chain over these hosts starts and ends. */
    function StartOf(hosts: seq<Node>, k: nat): Node
      requires k <= |hosts|
    {
      if k == 0 then ServerNode(ingress) else hosts[k - 1]
    }

    function EndOf(hosts: seq<Node>, k: nat): Node
      requires k <= |hosts|
    {
      if k == |hosts| then ServerNode(egress) else hosts[k]
    }

    ghost predicate ChosenHosts(hosts: seq<Node>) {
      |hosts| == |vnfiSequence| && forall k | 0 <= k < |hosts| :: hosts[k] in vnfiSequence[k]
    }

    /** From the start to its switch, along the links, and from the end's switch to the end. */
    function PieceOver(start: Node, walk: seq<int>, end: Node): seq<int> {
      (if start.ServerNode? then [start.id] else []) + walk + (if end.ServerNode? then [end.id] else [])
    }

    lemma PieceWalks(start: Node, walk: seq<int>, end: Node, layer: nat)
      requires layer <= |vnfiSequence|
      requires start.ServerNode? ==> start.id in switchOf && Needed(start.id, layer)
      requires end.ServerNode? ==> end.id in switchOf && Needed(end.id, layer)
      requires FollowsLinks(walk, Port(start), Port(end))
      ensures var piece := PieceOver(start, walk, end);
        IsWalk(piece, layer) && piece[0] == start.id && piece[|piece| - 1] == end.id
    {
      var piece := PieceOver(start, walk, end);
      var k := if start.ServerNode? then 1 else 0;
      forall i, j | 0 <= i < j < |piece| && j == i + 1 ensures Walkable(piece[i], piece[j], layer) {
        if k <= i && j < k + |walk| {
          assert piece[i] == walk[i - k] && piece[j] == walk[j - k];
        } else if i < k {
          assert Attached(piece[i], piece[j], layer);
        } else {
          assert piece[i] == walk[|walk| - 1] && Attached(piece[j], piece[i], layer);
        }
      }
    }

    /** A request is mapped whenever every server has a switch and, for some choice of a host
        for each stage, links lead from switch to switch. */
    lemma LinksSuffice(hosts: seq<Node>, walks: seq<seq<int>>)
      requires EveryServerHasSwitch() && ChosenHosts(hosts) && |walks| == |hosts| + 1
      requires forall k | 0 <= k < |walks| :: FollowsLinks(walks[k], Port(StartOf(hosts, k)), Port(EndOf(hosts, k)))
      ensures SomeTour()
    {
      var n := |hosts|;
      var pieces := seq(n + 1, k requires 0 <= k <= n => PieceOver(StartOf(hosts, k), walks[k], EndOf(hosts, k)));
      forall k | 0 <= k <= n
        ensures IsWalk(pieces[k], 0 + k)
        ensures pieces[k][0] == StartOf(hosts, k).id && pieces[k][|pieces[k]| - 1] == EndOf(hosts, k).id
      {
        PieceWalks(StartOf(hosts, k), walks[k], EndOf(hosts, k), k);
      }
      forall k, m | 0 <= k < m < |pieces| && m == k + 1 ensures Changes(pieces[k], pieces[m], 0 + k) {
        assert hosts[k] in vnfiSequence[k];
      }
      assert IsTour(pieces, 0, ingress);
    }

    /** The search around the node after hop `i` of stage `j` of the primary path. */
    function Around(j: nat, i: nat): Option<seq<LayerNode>>
      requires j < |primaryFP| && i + 1 < |primaryFP[j]|
      reads this
    {
      search(Without(multiLayerGraph, primaryFP[j][i + 1], |vnfiSequence| + 1), LayerNode(primaryFP[j][i], j), Top())
    }

    /** Stages with two nodes are not protected; elsewhere a hop is when a path is found. */
    ghost predicate IsProtected(j: nat, i: nat)
      reads this
    {
      j < |primaryFP| && |primaryFP[j]| != 2 && i + 1 < |primaryFP[j]| && Around(j, i).Some?
    }

    function HopAt(j: nat, i: nat): HopEnds
      requires j < |primaryFP| && i + 1 < |primaryFP[j]|
      reads this
    {
      (primaryFP[j][i], primaryFP[j][i + 1])
    }

    /** A backup for the hop: from its first node a chain through the remaining stages to the
        egress that never visits its second node. */
    ghost predicate IsBackup(value: seq<seq<int>>, j: nat, i: nat)
      requires IsProtected(j, i)
      reads this
    {
      var (cur, next) := HopAt(j, i);
      && IsStagePath(Without(multiLayerGraph, next, |vnfiSequence| + 1), Around(j, i).value, value, j, cur)
      && forall s | 0 <= s < |value| :: next !in value[s]
    }

    /** The tour goes on after hop `i` of stage `j` and avoids the hop's second node. */
    ghost predicate Detour(pieces: seq<seq<int>>, j: nat, i: nat)
      requires j < |primaryFP| && i + 1 < |primaryFP[j]|
      reads this
    {
      IsTour(pieces, j, primaryFP[j][i]) && Avoids(pieces, primaryFP[j][i + 1])
    }

    /** A detour is a path in the graph without the node. */
    lemma DetourHasPath(pieces: seq<seq<int>>, j: nat, i: nat)
      requires Built() && j < |primaryFP| && i + 1 < |primaryFP[j]| && Inside(primaryFP) && Detour(pieces, j, i)
      ensures var g := Without(multiLayerGraph, primaryFP[j][i + 1], |vnfiSequence| + 1);
        IsPath(g, LiftAll(pieces, j), LayerNode(primaryFP[j][i], j), Top()) && |LiftAll(pieces, j)| == |Concat(pieces)|
    {
      var next := primaryFP[j][i + 1];
      ChainIsTour(pieces, j, primaryFP[j][i]);
      ChainHasPath(pieces, j, primaryFP[j][i]);
      LiftedIds(pieces, j);
      ConcatAvoids(pieces, next);
      forall k | 0 <= k < |LiftAll(pieces, j)| ensures LiftAll(pieces, j)[k].id != next {
        assert Ids(LiftAll(pieces, j))[k] == LiftAll(pieces, j)[k].id;
      }
      PathAvoids(multiLayerGraph, LiftAll(pieces, j), LayerNode(primaryFP[j][i], j), Top(), next, |vnfiSequence| + 1);
    }

    /** A path in the graph without the node splits into a detour. */
    lemma PathIsDetour(p: seq<LayerNode>, j: nat, i: nat) returns (pieces: seq<seq<int>>)
      requires Built() && j < |primaryFP| <= |vnfiSequence| + 1 && i + 1 < |primaryFP[j]|
      requires IsPath(Without(multiLayerGraph, primaryFP[j][i + 1], |vnfiSequence| + 1), p, LayerNode(primaryFP[j][i], j), Top())
      ensures Detour(pieces, j, i) && Concat(pieces) == Ids(p)
    {
      var next, n, s := primaryFP[j][i + 1], |vnfiSequence| + 1, LayerNode(primaryFP[j][i], j);
      BuiltIsLayered();
      PathThere(multiLayerGraph, p, s, Top(), next, n);
      pieces := Pieces(p, j, n - j);
      SplitIsChain(multiLayerGraph, Hosts(), p, s, Top());
      SplitLosesNothing(multiLayerGraph, Hosts(), p, s, Top());
      PiecesAvoid(p, j, n - j, next, n);
      ChainIsTour(pieces, j, s.id);
    }

    /** Exactly when the search around a hop succeeds: when there is a detour; and then no
        detour is shorter. */
    lemma ProtectedExactly(j: nat, i: nat)
      requires Finds() && Built() && Inside(primaryFP) && j < |primaryFP| <= |vnfiSequence| + 1
      requires i + 1 < |primaryFP[j]|
      ensures Around(j, i).Some? <==> exists pieces :: Detour(pieces, j, i)
      ensures forall pieces | Detour(pieces, j, i) :: Around(j, i).Some? && |Around(j, i).value| <= |Concat(pieces)|
    {
      var g := Without(multiLayerGraph, primaryFP[j][i + 1], |vnfiSequence| + 1);
      var s := LayerNode(primaryFP[j][i], j);
      assert Found(g, s, Top());
      forall pieces | Detour(pieces, j, i)
        ensures Around(j, i).Some? && |Around(j, i).value| <= |Concat(pieces)|
      {
        DetourHasPath(pieces, j, i);
      }
      if Around(j, i).Some? {
        var pieces := PathIsDetour(Around(j, i).value, j, i);
      }
    }

    ghost predicate Before(a: nat, b: nat, j: nat, i: nat) {
      a < j || (a == j && b < i)
    }

    /** No hop before it has both the same nodes and a backup. */
    ghost predicate IsFirst(j: nat, i: nat)
      requires IsProtected(j, i)
      reads this
    {
      forall a, b | Before(a, b, j, i) && IsProtected(a, b) :: HopAt(a, b) != HopAt(j, i)
    }

    /** The table entry is the backup of the first hop with these nodes. */
    ghost predicate IsEntry(key: HopEnds, value: seq<seq<int>>, j: nat, i: nat)
      reads this
    {
      IsProtected(j, i) && HopAt(j, i) == key && IsBackup(value, j, i) && IsFirst(j, i)
    }

    /** The table holds exactly the backups of the hops before hop `i` of stage `j`. */
    ghost predicate Backups(m: BackupTable, j: nat, i: nat)
      reads this
    {
      && (forall a, b | Before(a, b, j, i) && IsProtected(a, b) :: HopAt(a, b) in m)
      && (forall key | key in m :: exists a, b :: Before(a, b, j, i) && IsEntry(key, m[key], a, b))
    }

    lemma WithoutLayered(id: int, n: nat)
      requires Built()
      ensures Layered(Without(multiLayerGraph, id, n), Hosts())
    {
      BuiltIsLayered();
    }

    lemma BackupsStep(m: BackupTable, j: nat, i: nat)
      requires Backups(m, j, i)
      ensures (IsProtected(j, i) ==> HopAt(j, i) in m) ==> Backups(m, j, i + 1)
    {
      var k := i + 1;
      assert forall a, b :: Before(a, b, j, k) <==> Before(a, b, j, i) || (a == j && b == i);
    }

    lemma BackupsInsert(m: BackupTable, j: nat, i: nat, value: seq<seq<int>>)
      requires Backups(m, j, i) && IsProtected(j, i) && IsBackup(value, j, i) && HopAt(j, i) !in m
      ensures Backups(m[HopAt(j, i) := value], j, i + 1)
    {
      var k, n := i + 1, m[HopAt(j, i) := value];
      assert forall a, b :: Before(a, b, j, k) <==> Before(a, b, j, i) || (a == j && b == i);
      assert IsEntry(HopAt(j, i), value, j, i) && Before(j, i, j, k);
      forall key | key in n ensures exists a, b :: Before(a, b, j, k) && IsEntry(key, n[key], a, b) {
        if key != HopAt(j, i) {
          var a, b :| Before(a, b, j, i) && IsEntry(key, m[key], a, b);
          assert Before(a, b, j, k) && IsEntry(key, n[key], a, b);
        }
      }
    }

    /** Adds the backup of one hop, if there is one and it is the first. */
    method BackupHop(m: BackupTable, stageIndex: nat, index: nat)
      returns (r: BackupTable)
      requires Finds() && Built() && stageIndex < |primaryFP| == |vnfiSequence| + 1
      requires |primaryFP[stageIndex]| != 2 && index + 1 < |primaryFP[stageIndex]|
      requires Backups(m, stageIndex, index)
      ensures Backups(r, stageIndex, index + 1)
    {
      var currentNodeID, nextNodeID := primaryFP[stageIndex][index], primaryFP[stageIndex][index + 1];
      var mLG := DeleteNodeInMLG(multiLayerGraph, nextNodeID);
      WithoutLayered(nextNodeID, |vnfiSequence| + 1);
      var backupPath := GenMultiStagePath(mLG, LayerNode(currentNodeID, stageIndex));
      BackupsStep(m, stageIndex, index);
      if backupPath == None {
        return m;
      }
      var pruned := PruneNullListInMultiStagePath(backupPath.value);
      if (currentNodeID, nextNodeID) !in m {
        assert pruned == backupPath.value[stageIndex..];
        assert IsBackup(pruned, stageIndex, index);
        BackupsInsert(m, stageIndex, index, pruned);
        r := m[(currentNodeID, nextNodeID) := pruned];
      } else {
        r := m;
      }
    }

    /** After the last hop of a stage comes the first one of the next. */
    lemma BackupsNextStage(m: BackupTable, j: nat, i: nat)
      requires Backups(m, j, i) && j < |primaryFP|
      requires |primaryFP[j]| == 2 || i + 1 >= |primaryFP[j]|
      ensures Backups(m, j + 1, 0)
    {
      var k := j + 1;
      assert forall a, b | Before(a, b, j, i) :: Before(a, b, k, 0);
      assert forall a, b | Before(a, b, k, 0) && IsProtected(a, b) :: Before(a, b, j, i);
    }

    method BackupStage(m: BackupTable, stageIndex: nat)
      returns (r: BackupTable)
      requires Finds() && Built() && stageIndex < |primaryFP| == |vnfiSequence| + 1
      requires Backups(m, stageIndex, 0)
      ensures Backups(r, stageIndex + 1, 0)
    {
      r := m;
      var pathLength := |primaryFP[stageIndex]|;
      var index := 0;
      if pathLength != 2 {
        while index + 1 < pathLength
          invariant Backups(r, stageIndex, index)
        {
          r := BackupHop(r, stageIndex, index);
          index := index + 1;
        }
      }
      BackupsNextStage(r, stageIndex, index);
    }

    /** Computes the backups of all hops and numbers them from 2 on, in any order. */
    method MapBackupFP()
      returns (backupForwardingPath: Numbering)
      requires Finds() && Built() && |primaryFP| == |vnfiSequence| + 1
      ensures exists paths :: Backups(paths, |primaryFP|, 0) && Numbered(backupForwardingPath, paths)
    {
      var found: BackupTable := map[];
      for stageIndex := 0 to |primaryFP|
        invariant Backups(found, stageIndex, 0)
      {
        found := BackupStage(found, stageIndex);
      }
      backupForwardingPath := NumberBackups(found);
    }

    /** A hop of a stage with more than one hop, around whose second node the rest of the tour
        can be made. */
    ghost predicate HasDetour(cur: int, next: int, j: nat, i: nat)
      reads this
    {
      && j < |primaryFP| && |primaryFP[j]| != 2 && i + 1 < |primaryFP[j]|
      && primaryFP[j][i] == cur && primaryFP[j][i + 1] == next && exists pieces :: Detour(pieces, j, i)
    }

    /** Which hops get a backup: exactly those with a detour.  The backup is a shortest detour
        for the first hop with these nodes. */
    lemma BackupsExactly(paths: BackupTable, cur: int, next: int)
      requires Finds() && Built() && Inside(primaryFP) && |primaryFP| == |vnfiSequence| + 1
      requires Backups(paths, |primaryFP|, 0)
      ensures (cur, next) in paths <==> exists j, i :: HasDetour(cur, next, j, i)
      ensures (cur, next) in paths ==> exists j, i, pieces ::
        && HasDetour(cur, next, j, i) && Detour(pieces, j, i) && IsPadding(paths[(cur, next)], pieces)
        && forall other | Detour(other, j, i) :: |Concat(pieces)| <= |Concat(other)|
    {
      var k := |primaryFP|;
      if (cur, next) in paths {
        var j, i :| Before(j, i, k, 0) && IsEntry((cur, next), paths[(cur, next)], j, i);
        ProtectedExactly(j, i);
        var pieces := BackupIsDetour(paths[(cur, next)], j, i);
        assert HasDetour(cur, next, j, i);
      }
      if exists j, i :: HasDetour(cur, next, j, i) {
        var j, i :| HasDetour(cur, next, j, i);
        ProtectedExactly(j, i);
        assert Before(j, i, k, 0) && IsProtected(j, i) && HopAt(j, i) == (cur, next);
      }
    }

    /** The stages of a backup are those of a detour as long as the path found. */
    lemma BackupIsDetour(value: seq<seq<int>>, j: nat, i: nat) returns (pieces: seq<seq<int>>)
      requires Finds() && Built() && Inside(primaryFP) && |primaryFP| == |vnfiSequence| + 1
      requires IsProtected(j, i) && IsBackup(value, j, i)
      ensures Detour(pieces, j, i) && IsPadding(value, pieces) && |Concat(pieces)| == |Around(j, i).value|
    {
      var next, g := primaryFP[j][i + 1], Without(multiLayerGraph, primaryFP[j][i + 1], |vnfiSequence| + 1);
      pieces :| value == PadAll(pieces)
        && IsChain(g, Hosts(), pieces, j, primaryFP[j][i], egress) && Concat(pieces) == Ids(Around(j, i).value);
      ChainWithout(pieces, next, j, primaryFP[j][i]);
      ChainIsTour(pieces, j, primaryFP[j][i]);
      forall k | 0 <= k < |pieces| ensures next !in pieces[k] {
        assert next !in value[k];
      }
    }

    /** A chain through the graph without a node is one through the graph. */
    lemma ChainWithout(pieces: seq<seq<int>>, id: int, first: nat, from: int)
      requires IsChain(Without(multiLayerGraph, id, |vnfiSequence| + 1), Hosts(), pieces, first, from, egress)
      ensures ChainFrom(pieces, first, from)
    {
      var g := Without(multiLayerGraph, id, |vnfiSequence| + 1);
      forall k | 0 <= k < |pieces| ensures |pieces[k]| > 0 && Joined(multiLayerGraph, pieces[k], first + k) {
        assert Joined(g, pieces[k], first + k);
        var piece, layer := pieces[k], first + k;
        forall i | 0 <= i < |piece| - 1 ensures JoinedAt(multiLayerGraph, piece, layer, i) {
          assert JoinedAt(g, piece, layer, i);
        }
      }
    }

    method NumberBackups(backupPathSet: BackupTable) returns (r: Numbering)
      ensures Numbered(r, backupPathSet)
    {
      r := map[];
      var pathID := 2;
      var todo := backupPathSet;
      while todo.Keys != {}
        invariant todo.Keys <= backupPathSet.Keys && pathID >= 2
        invariant pathID == 2 + |backupPathSet| - |todo|
        invariant Numbers(r, backupPathSet, pathID)
        invariant forall p | p in backupPathSet :: p in todo <==> !HasNumber(r, p)
      {
        ghost var some := Member(todo.Keys);
        var key :| key in todo;
        NumberMore(r, backupPathSet, pathID, key);
        r := r[(key.0, key.1, pathID) := backupPathSet[key]];
        assert |todo - {key}| == |todo| - 1;
        todo := todo - {key};
        pathID := pathID + 1;
      }
    }
  }
}
