/** What the checks before an addition come to: which paths they accept, said of the paths and
    functions themselves, and that an accepted chain may also be run backwards. */
module SimulatorChecks {
  import opened Nodes
  import opened SimulatorModel
  import opened SimulatorJobs

  function First<T>(s: seq<T>): T
    requires s != []
  {
    s[0]
  }

  function Last<T>(s: seq<T>): T
    requires s != []
  {
    s[|s| - 1]
  }

  // ------------------------------------------------------------ what is accepted

  /** The stages of one direction lead from its ingress to its egress. */
  ghost predicate Leads(dir: Direction, stages: seq<seq<NodeID>>) {
    && stages != [] && (forall i | 0 <= i < |stages| :: |stages[i]| >= 2)
    && First(First(stages)) == dir.ingress.id && Last(Last(stages)) == dir.egress.id
  }

  /** Stage `i` ends, and the next one starts, at this node. */
  predicate MeetsAt(stages: seq<seq<NodeID>>, i: int, node: Node) {
    && 0 <= i && i + 1 < |stages| && stages[i] != [] && stages[i + 1] != []
    && Last(stages[i]) == node.id && First(stages[i + 1]) == node.id
  }

  /** Hop `i` crosses a link of the network or stays on its node. */
  predicate Crossable(l: Ledger, path: seq<NodeID>, i: int)
    requires 0 <= i && i + 1 < |path|
  {
    (path[i], path[i + 1]) in l.links || (path[i], path[i + 1]) in l.serverLinks || path[i] == path[i + 1]
  }

  /** An accepted addition has one or two directions.  Each leads from its ingress to its
      egress over links and through switches; the stages of the first meet at the nodes of
      the functions in order, those of the second at the same nodes in the opposite order. */
  lemma AcceptedPaths(b: Sib, sfc: Sfc, sfci: Sfci)
    requires AddSfci(b, sfc, sfci).1
    ensures 1 <= |sfc.directions| <= 2 && |sfci.paths| == |sfc.directions|
    ensures forall k | 0 <= k < |sfci.vnfiSequence| :: |sfci.vnfiSequence[k]| == 1
    ensures forall d | 0 <= d < |sfci.paths| ::
      |sfci.paths[d]| == |sfci.vnfiSequence| + 1 && Leads(sfc.directions[d], sfci.paths[d])
    ensures forall d, m, i | 0 <= d < |sfci.paths| && 0 <= m < |sfci.paths[d]| && 0 <= i < |sfci.paths[d][m]| - 1 ::
      && Crossable(b.ledger, sfci.paths[d][m], i)
      && (i > 0 ==> sfci.paths[d][m][i] in b.ledger.switches)
    ensures forall k | 0 <= k < |sfci.vnfiSequence| ::
      && MeetsAt(sfci.paths[0], k, sfci.vnfiSequence[k][0].node)
      && (|sfci.paths| == 2 ==> MeetsAt(sfci.paths[1], |sfci.vnfiSequence| - 1 - k, sfci.vnfiSequence[k][0].node))
  {
    var l, n := b.ledger, |sfci.vnfiSequence|;
    forall d | 0 <= d < |sfci.paths|
      ensures |sfci.paths[d]| == n + 1 && Leads(sfc.directions[d], sfci.paths[d])
      ensures forall m, i | 0 <= m < |sfci.paths[d]| && 0 <= i < |sfci.paths[d][m]| - 1 ::
        Crossable(l, sfci.paths[d][m], i) && (i > 0 ==> sfci.paths[d][m][i] in l.switches)
    {
      DirectionAccepted(l, sfc.directions[d], ChainOf(sfci, d), sfci.paths[d]);
    }
    forall k | 0 <= k < n
      ensures MeetsAt(sfci.paths[0], k, sfci.vnfiSequence[k][0].node)
      ensures |sfci.paths| == 2 ==> MeetsAt(sfci.paths[1], n - 1 - k, sfci.vnfiSequence[k][0].node)
    {
      SeamAccepted(l, sfc.directions[0], ChainOf(sfci, 0), sfci.paths[0], k);
      if |sfci.paths| == 2 {
        SeamAccepted(l, sfc.directions[1], ChainOf(sfci, 1), sfci.paths[1], n - 1 - k);
      }
    }
  }

  lemma DirectionAccepted(l: Ledger, dir: Direction, chain: seq<seq<Vnfi>>, paths: seq<seq<NodeID>>)
    requires forall i | 0 <= i < |chain| :: |chain[i]| == 1
    requires DirectionChecked(l, dir, chain, paths)
    ensures |paths| == |chain| + 1 && Leads(dir, paths)
    ensures forall m, i | 0 <= m < |paths| && 0 <= i < |paths[m]| - 1 ::
      Crossable(l, paths[m], i) && (i > 0 ==> paths[m][i] in l.switches)
  {
    forall m | 0 <= m < |paths| ensures |paths[m]| >= 2 { assert InnerChecked(l, paths[m]); }
    forall m, i | 0 <= m < |paths| && 0 <= i < |paths[m]| - 1
      ensures Crossable(l, paths[m], i) && (i > 0 ==> paths[m][i] in l.switches)
    {
      assert InnerChecked(l, paths[m]);
      DirectionLinked(l, dir, chain, paths, m, i);
    }
  }

  lemma SeamAccepted(l: Ledger, dir: Direction, chain: seq<seq<Vnfi>>, paths: seq<seq<NodeID>>, k: nat)
    requires forall i | 0 <= i < |chain| :: |chain[i]| == 1
    requires DirectionChecked(l, dir, chain, paths) && k < |chain|
    ensures MeetsAt(paths, k, chain[k][0].node)
  {
    assert SeamChecked(l, chain[k][0].node, paths[k], paths[k + 1]);
  }

  // ------------------------------------------------------------ stage by stage

  /** The `m`-th function that direction `d` passes: the second direction takes them in the
      opposite order. */
  function HostOf(sfci: Sfci, d: nat, m: nat): Node
    requires m < |sfci.vnfiSequence| && forall k | 0 <= k < |sfci.vnfiSequence| :: |sfci.vnfiSequence[k]| == 1
  {
    sfci.vnfiSequence[if d == 0 then m else |sfci.vnfiSequence| - 1 - m][0].node
  }

  /** A link of the kind that leads to servers, or to switches. */
  predicate Joins(l: Ledger, node: Node, a: NodeID, b: NodeID) {
    match node
    case ServerNode(_) => (a, b) in l.serverLinks
    case SwitchNode(_, _, _) => (a, b) in l.links
  }

  /** The stage leads from `start` to `end` through switches, by links that suit its ends.
      Next to a function, but not to a gate, it may stay where it is. */
  predicate StageSound(l: Ledger, path: seq<NodeID>, start: Node, end: Node, atGate: (bool, bool)) {
    var n := |path|;
    && n >= 2 && path[0] == start.id && path[n - 1] == end.id
    && (forall i | 1 <= i < n - 1 :: path[i] in l.switches)
    && (forall i | 1 <= i < n - 2 :: (path[i], path[i + 1]) in l.links)
    && (Joins(l, start, path[0], path[1]) || (!atGate.0 && path[0] == path[1]))
    && (Joins(l, end, path[n - 2], path[n - 1]) || (!atGate.1 && path[n - 2] == path[n - 1]))
  }

  /** Stage `m` of direction `d` leads from the function before it to the function after it,
      the first one from the ingress and the last one to the egress. */
  predicate SoundAt(l: Ledger, dir: Direction, sfci: Sfci, d: nat, stages: seq<seq<NodeID>>, m: int)
    requires forall k | 0 <= k < |sfci.vnfiSequence| :: |sfci.vnfiSequence[k]| == 1
  {
    var n := |sfci.vnfiSequence|;
    && 0 <= m <= n && m < |stages|
    && StageSound(l, stages[m],
         if m == 0 then dir.ingress else HostOf(sfci, d, m - 1),
         if m == n then dir.egress else HostOf(sfci, d, m),
         (m == 0, m == n))
  }

  predicate StagesSound(l: Ledger, dir: Direction, sfci: Sfci, d: nat, stages: seq<seq<NodeID>>)
    requires forall k | 0 <= k < |sfci.vnfiSequence| :: |sfci.vnfiSequence[k]| == 1
  {
    |stages| == |sfci.vnfiSequence| + 1 && forall m | 0 <= m < |stages| :: SoundAt(l, dir, sfci, d, stages, m)
  }

  predicate IsHost(l: Ledger, node: Node) {
    match node
    case ServerNode(id) => (id, NfviServer) in l.servers.Items
    case SwitchNode(id, programmable, _) => id in l.switches && programmable
  }

  predicate IsGate(l: Ledger, node: Node) {
    match node
    case ServerNode(id) => (id, ClassifierServer) in l.servers.Items
    case SwitchNode(id, programmable, gateway) =>
      id in l.switches && 2 * id + 1 < l.torPaths && programmable && gateway
  }

  /** What the checks ask for, said stage by stage. */
  predicate Sound(l: Ledger, sfc: Sfc, sfci: Sfci) {
    && (|sfc.directions| == 1 || |sfc.directions| == 2) && |sfci.paths| == |sfc.directions|
    && (forall k | 0 <= k < |sfci.vnfiSequence| ::
          |sfci.vnfiSequence[k]| == 1 && IsHost(l, sfci.vnfiSequence[k][0].node))
    && (forall d | 0 <= d < |sfc.directions| ::
          IsGate(l, sfc.directions[d].ingress) && IsGate(l, sfc.directions[d].egress))
    && forall d | 0 <= d < |sfc.directions| ::
         sfc.directions[d].ID == d && StagesSound(l, sfc.directions[d], sfci, d, sfci.paths[d])
  }

  lemma HostsInOrder(sfci: Sfci, d: nat, m: nat)
    requires forall k | 0 <= k < |sfci.vnfiSequence| :: |sfci.vnfiSequence[k]| == 1
    requires m < |sfci.vnfiSequence|
    ensures |ChainOf(sfci, d)| == |sfci.vnfiSequence| && |ChainOf(sfci, d)[m]| == 1
    ensures ChainOf(sfci, d)[m][0].node == HostOf(sfci, d, m)
  {
  }

  lemma SoundStages(l: Ledger, dir: Direction, sfci: Sfci, d: nat, stages: seq<seq<NodeID>>)
    requires forall k | 0 <= k < |sfci.vnfiSequence| :: |sfci.vnfiSequence[k]| == 1
    requires StagesSound(l, dir, sfci, d, stages)
    ensures DirectionChecked(l, dir, ChainOf(sfci, d), stages)
  {
    var n := |sfci.vnfiSequence|;
    forall m | 0 <= m <= n ensures InnerChecked(l, stages[m]) {
      assert SoundAt(l, dir, sfci, d, stages, m);
    }
    assert SoundAt(l, dir, sfci, d, stages, 0) && SoundAt(l, dir, sfci, d, stages, n);
    forall k | 0 <= k < n ensures SeamChecked(l, HostOf(sfci, d, k), stages[k], stages[k + 1]) {
      assert SoundAt(l, dir, sfci, d, stages, k) && SoundAt(l, dir, sfci, d, stages, k + 1);
    }
    forall k | 0 <= k < n ensures HostOf(sfci, d, k) == ChainOf(sfci, d)[k][0].node {
      HostsInOrder(sfci, d, k);
    }
  }

  lemma CheckedStage(l: Ledger, dir: Direction, sfci: Sfci, d: nat, stages: seq<seq<NodeID>>, m: nat)
    requires forall k | 0 <= k < |sfci.vnfiSequence| :: |sfci.vnfiSequence[k]| == 1
    requires DirectionChecked(l, dir, ChainOf(sfci, d), stages) && m <= |sfci.vnfiSequence|
    ensures SoundAt(l, dir, sfci, d, stages, m)
  {
    assert InnerChecked(l, stages[m]);
    if m > 0 {
      HostsInOrder(sfci, d, m - 1);
      assert SeamChecked(l, HostOf(sfci, d, m - 1), stages[m - 1], stages[m]);
    }
    if m < |sfci.vnfiSequence| {
      HostsInOrder(sfci, d, m);
      assert SeamChecked(l, HostOf(sfci, d, m), stages[m], stages[m + 1]);
    }
  }

  lemma NodesMean(l: Ledger, node: Node)
    ensures GateChecked(l, node) <==> IsGate(l, node)
    ensures HostChecked(l, node) <==> IsHost(l, node)
  {
  }

  lemma CheckedIsSound(l: Ledger, sfc: Sfc, sfci: Sfci)
    requires Checked(l, sfc, sfci)
    ensures Sound(l, sfc, sfci)
  {
    forall node ensures (GateChecked(l, node) <==> IsGate(l, node)) && (HostChecked(l, node) <==> IsHost(l, node)) {
      NodesMean(l, node);
    }
    forall d | 0 <= d < |sfc.directions| ensures StagesSound(l, sfc.directions[d], sfci, d, sfci.paths[d]) {
      assert DirectionChecked(l, sfc.directions[d], ChainOf(sfci, d), sfci.paths[d]);
      forall m | 0 <= m < |sfci.paths[d]| ensures SoundAt(l, sfc.directions[d], sfci, d, sfci.paths[d], m) {
        CheckedStage(l, sfc.directions[d], sfci, d, sfci.paths[d], m);
      }
    }
  }

  lemma SoundIsChecked(l: Ledger, sfc: Sfc, sfci: Sfci)
    requires Sound(l, sfc, sfci)
    ensures Checked(l, sfc, sfci)
  {
    forall node ensures (GateChecked(l, node) <==> IsGate(l, node)) && (HostChecked(l, node) <==> IsHost(l, node)) {
      NodesMean(l, node);
    }
    forall d | 0 <= d < |sfc.directions|
      ensures DirectionChecked(l, sfc.directions[d], ChainOf(sfci, d), sfci.paths[d])
    {
      SoundStages(l, sfc.directions[d], sfci, d, sfci.paths[d]);
    }
  }

  /** The checks accept exactly the sound requests. */
  lemma ChecksMean(l: Ledger, sfc: Sfc, sfci: Sfci)
    ensures Checked(l, sfc, sfci) <==> Sound(l, sfc, sfci)
  {
    if Checked(l, sfc, sfci) { CheckedIsSound(l, sfc, sfci); }
    if Sound(l, sfc, sfci) { SoundIsChecked(l, sfc, sfci); }
  }

  // ------------------------------------------------------------ there and back

  function Reversed<T>(s: seq<T>): (r: seq<T>)
    ensures |r| == |s| && forall i | 0 <= i < |s| :: r[i] == s[|s| - 1 - i]
  {
    seq(|s|, i requires 0 <= i < |s| => s[|s| - 1 - i])
  }

  /** The same way back: the stages in opposite order, each of them backwards. */
  function WayBack(stages: seq<seq<NodeID>>): (r: seq<seq<NodeID>>)
    ensures |r| == |stages| && forall i | 0 <= i < |stages| :: r[i] == Reversed(stages[|stages| - 1 - i])
  {
    seq(|stages|, i requires 0 <= i < |stages| => Reversed(stages[|stages| - 1 - i]))
  }

  /** Every link can be crossed both ways. */
  ghost predicate BothWays(l: Ledger) {
    && (forall a, b :: (a, b) in l.links <==> (b, a) in l.links)
    && forall a, b :: (a, b) in l.serverLinks <==> (b, a) in l.serverLinks
  }

  /** A second direction from where the first one leaves to where it enters. */
  function BothDirections(sfc: Sfc): Sfc
    requires |sfc.directions| == 1
  {
    var dir := sfc.directions[0];
    sfc.(directions := [dir, Direction(1, dir.egress, dir.ingress)])
  }

  function ThereAndBack(sfci: Sfci): Sfci
    requires |sfci.paths| == 1
  {
    sfci.(paths := [sfci.paths[0], WayBack(sfci.paths[0])])
  }

  lemma LinkBack(l: Ledger, node: Node, a: NodeID, b: NodeID)
    requires BothWays(l)
    ensures LinkFor(l, node, a, b) <==> LinkFor(l, node, b, a)
  {
  }

  lemma InnerBack(l: Ledger, path: seq<NodeID>)
    requires BothWays(l) && InnerChecked(l, path)
    ensures InnerChecked(l, Reversed(path))
  {
    var r, n := Reversed(path), |path|;
    forall i | 1 <= i < n - 2 ensures (r[i], r[i + 1]) in l.links {
      var j := n - 2 - i;
      assert (path[j], path[j + 1]) in l.links;
      assert r[i] == path[j + 1] && r[i + 1] == path[j];
      assert (path[j + 1], path[j]) in l.links;
    }
  }

  lemma SeamBack(l: Ledger, node: Node, before: seq<NodeID>, after: seq<NodeID>)
    requires BothWays(l) && |before| >= 2 && |after| >= 2 && SeamChecked(l, node, before, after)
    ensures SeamChecked(l, node, Reversed(after), Reversed(before))
  {
    LinkBack(l, node, after[1], after[0]);
    LinkBack(l, node, before[|before| - 2], before[|before| - 1]);
  }

  lemma DirectionBack(l: Ledger, dir: Direction, back: Direction, chain: seq<seq<Vnfi>>, paths: seq<seq<NodeID>>)
    requires forall i | 0 <= i < |chain| :: |chain[i]| == 1
    requires BothWays(l) && DirectionChecked(l, dir, chain, paths)
    requires back.ingress == dir.egress && back.egress == dir.ingress
    ensures DirectionChecked(l, back, Reversed(chain), WayBack(paths))
  {
    var turned: seq<seq<Vnfi>> := Reversed(chain);
    var r, n := WayBack(paths), |chain|;
    forall i | 0 <= i < |r| ensures InnerChecked(l, r[i]) {
      assert InnerChecked(l, paths[n - i]);
      InnerBack(l, paths[n - i]);
    }
    forall i | 0 <= i < n ensures SeamChecked(l, turned[i][0].node, r[i], r[i + 1]) {
      var k := n - 1 - i;
      assert InnerChecked(l, paths[k]) && InnerChecked(l, paths[k + 1]);
      assert SeamChecked(l, chain[k][0].node, paths[k], paths[k + 1]);
      SeamBack(l, chain[k][0].node, paths[k], paths[k + 1]);
    }
    EndsBack(l, dir, chain, paths);
  }

  lemma EndsBack(l: Ledger, dir: Direction, chain: seq<seq<Vnfi>>, paths: seq<seq<NodeID>>)
    requires forall i | 0 <= i < |chain| :: |chain[i]| == 1
    requires BothWays(l) && DirectionChecked(l, dir, chain, paths)
    ensures var first := WayBack(paths)[0]; var last := WayBack(paths)[|chain|]; var n := |last|;
      && |first| >= 2 && n >= 2
      && first[0] == dir.egress.id && LinkFor(l, dir.egress, first[0], first[1])
      && last[n - 1] == dir.ingress.id && LinkFor(l, dir.ingress, last[n - 2], last[n - 1])
  {
    assert InnerChecked(l, paths[0]) && InnerChecked(l, paths[|chain|]);
    var end := paths[|chain|];
    LinkBack(l, dir.egress, end[|end| - 2], end[|end| - 1]);
    LinkBack(l, dir.ingress, paths[0][0], paths[0][1]);
  }

  lemma PassesBack(l: Ledger, sfc: Sfc, sfci: Sfci)
    requires BothWays(l) && |sfc.directions| == 1 && |sfci.paths| == 1 && Checked(l, sfc, sfci)
    ensures Checked(l, BothDirections(sfc), ThereAndBack(sfci))
  {
    var both, two := BothDirections(sfc), ThereAndBack(sfci);
    var there, back := both.directions[0], both.directions[1];
    assert DirectionChecked(l, there, ChainOf(sfci, 0), sfci.paths[0]);
    DirectionBack(l, there, back, sfci.vnfiSequence, sfci.paths[0]);
    assert ChainOf(two, 1) == Reversed(sfci.vnfiSequence);
    assert DirectionChecked(l, back, ChainOf(two, 1), two.paths[1]);
  }

  lemma PassesOneWay(l: Ledger, sfc: Sfc, sfci: Sfci)
    requires |sfc.directions| == 1 && |sfci.paths| == 1 && Checked(l, BothDirections(sfc), ThereAndBack(sfci))
    ensures Checked(l, sfc, sfci)
  {
    var both, two := BothDirections(sfc), ThereAndBack(sfci);
    assert both.directions[0] == sfc.directions[0] && two.paths[0] == sfci.paths[0];
    assert DirectionChecked(l, both.directions[0], ChainOf(two, 0), two.paths[0]);
  }

  /** Where links go both ways, an instance of one direction passes the checks exactly if it
      does so with the way back as its second direction. */
  lemma PassesBothWays(l: Ledger, sfc: Sfc, sfci: Sfci)
    requires BothWays(l) && |sfc.directions| == 1 && |sfci.paths| == 1
    ensures Checked(l, sfc, sfci) <==> Checked(l, BothDirections(sfc), ThereAndBack(sfci))
  {
    if Checked(l, sfc, sfci) { PassesBack(l, sfc, sfci); }
    if Checked(l, BothDirections(sfc), ThereAndBack(sfci)) { PassesOneWay(l, sfc, sfci); }
  }
}
