/** Chain instances as the simulator installs them: the hops of their paths, the checks
    made before anything is charged, and the handlers as functions on the whole state. */
module SimulatorJobs {
  import opened Nodes
  import opened SimulatorModel
  import opened Sets

  datatype Vnfi = Vnfi(vnfType: int, node: Node, maxCPUNum: int, maxMem: int)
  datatype Direction = Direction(ID: nat, ingress: Node, egress: Node)
  datatype Sfc = Sfc(sfcUUID: int, directions: seq<Direction>)

  /** `paths[d]` is the primary forwarding path of direction `d`: one path for each stage. */
  datatype Sfci = Sfci(sfciID: int, vnfiSequence: seq<seq<Vnfi>>, paths: seq<seq<seq<NodeID>>>)

  datatype VnfiRecord = VnfiRecord(sfciID: int, stage: nat, vnfi: Vnfi)
  datatype Flow = Flow(sfciID: int, dirID: nat)
  datatype SfciRecord = SfciRecord(sfc: Sfc, sfci: Sfci, traffics: map<nat, set<int>>)

  type Vnfis = map<NodeID, seq<VnfiRecord>>

  datatype Sib = Sib(
    ledger: Ledger, vnfis: Vnfis, sfcs: map<int, Sfc>, sfcis: map<int, SfciRecord>, flows: map<int, Flow>)

  // ------------------------------------------------------------ the hops of an instance

  /** The first `n` hops of a path. */
  function PathSteps(id: int, d: nat, stage: nat, path: seq<NodeID>, n: nat): (steps: seq<Step>)
    requires n == 0 || n < |path|
    ensures |steps| == n && forall i | 0 <= i < n :: steps[i].key == Hop(id, d, stage, i)
  {
    seq(n, i requires 0 <= i < n => Step(Hop(id, d, stage, i), path[i], path[i + 1]))
  }

  lemma PathStepsNext(id: int, d: nat, stage: nat, path: seq<NodeID>, n: nat)
    requires n + 1 < |path|
    ensures PathSteps(id, d, stage, path, n + 1) ==
      PathSteps(id, d, stage, path, n) + [Step(Hop(id, d, stage, n), path[n], path[n + 1])]
  {
  }

  function HopCount(path: seq<NodeID>): nat {
    if path == [] then 0 else |path| - 1
  }

  function StageSteps(id: int, d: nat, paths: seq<seq<NodeID>>, m: nat): seq<Step>
    requires m <= |paths|
  {
    if m == 0 then []
    else StageSteps(id, d, paths, m - 1) + PathSteps(id, d, m - 1, paths[m - 1], HopCount(paths[m - 1]))
  }

  /** The hops of the first `k` directions, in the order the loops visit them. */
  function DirSteps(sfci: Sfci, k: nat): seq<Step>
    requires k <= |sfci.paths|
  {
    if k == 0 then []
    else DirSteps(sfci, k - 1) + StageSteps(sfci.sfciID, k - 1, sfci.paths[k - 1], |sfci.paths[k - 1]|)
  }

  function StepsOf(sfci: Sfci): seq<Step> {
    DirSteps(sfci, |sfci.paths|)
  }

  lemma {:induction false} StageKeys(id: int, d: nat, paths: seq<seq<NodeID>>, m: nat)
    requires m <= |paths|
    ensures DistinctKeys(StageSteps(id, d, paths, m))
    ensures forall i | 0 <= i < |StageSteps(id, d, paths, m)| ::
      var h := StageSteps(id, d, paths, m)[i].key; h.sfciID == id && h.dirID == d && h.stage < m
  {
    if m > 0 {
      StageKeys(id, d, paths, m - 1);
    }
  }

  lemma {:induction false} DirKeys(sfci: Sfci, k: nat)
    requires k <= |sfci.paths|
    ensures DistinctKeys(DirSteps(sfci, k))
    ensures forall i | 0 <= i < |DirSteps(sfci, k)| ::
      var h := DirSteps(sfci, k)[i].key; h.sfciID == sfci.sfciID && h.dirID < k
  {
    if k > 0 {
      DirKeys(sfci, k - 1);
      StageKeys(sfci.sfciID, k - 1, sfci.paths[k - 1], |sfci.paths[k - 1]|);
    }
  }

  lemma {:induction false} StagePrefix(id: int, d: nat, paths: seq<seq<NodeID>>, m: nat, n: nat)
    requires m <= n <= |paths|
    ensures StageSteps(id, d, paths, m) <= StageSteps(id, d, paths, n)
  {
    if m < n { StagePrefix(id, d, paths, m, n - 1); }
  }

  lemma {:induction false} DirPrefix(sfci: Sfci, m: nat, n: nat)
    requires m <= n <= |sfci.paths|
    ensures DirSteps(sfci, m) <= DirSteps(sfci, n)
  {
    if m < n { DirPrefix(sfci, m, n - 1); }
  }

  // ------------------------------------------------------------ charging

  predicate StepLinked(l: Ledger, st: Step) {
    Crosses(st) in l.serverLinks || Crosses(st) in l.links || st.src == st.dst
  }

  /** One turn of the innermost loop of adding; `false` where the source raises. */
  function Charge(l: Ledger, st: Step): (Ledger, bool) {
    if st.src in l.switches && l.switches[st.src].tcamUsage >= l.switches[st.src].tcamSize then (l, false)
    else
      var l1 := l.(switches := AddEntry(l.switches, st));
      if StepLinked(l, st) then (Reserve(l1, st), true) else (l1, false)
  }

  function ChargeAll(l: Ledger, steps: seq<Step>): (Ledger, bool) {
    if steps == [] then (l, true)
    else
      var before := ChargeAll(l, steps[..|steps| - 1]);
      if before.1 then Charge(before.0, steps[|steps| - 1]) else before
  }

  /** One turn of the innermost loop of removing. */
  function Discharge(l: Ledger, st: Step): (Ledger, bool) {
    if st.src in l.switches && l.switches[st.src].tcamUsage <= 0 then (l, false)
    else if st.src in l.switches && st.key !in l.switches[st.src].nextHop then
      var s := l.switches[st.src];
      (l.(switches := l.switches[st.src := s.(tcamUsage := s.tcamUsage - 1)]), false)
    else
      var l1 := l.(switches := DropEntry(l.switches, st));
      if Crosses(st) in l.serverLinks then
        if st.key in l.serverLinks[Crosses(st)] then (Free(l1, st), true) else (l1, false)
      else if Crosses(st) in l.links then
        if st.key in l.links[Crosses(st)] then (Free(l1, st), true) else (l1, false)
      else (l1, st.src == st.dst)
  }

  function DischargeAll(l: Ledger, steps: seq<Step>): (Ledger, bool) {
    if steps == [] then (l, true)
    else
      var before := DischargeAll(l, steps[..|steps| - 1]);
      if before.1 then Discharge(before.0, steps[|steps| - 1]) else before
  }

  /** How many hops start at a switch. */
  function HopsFrom(steps: seq<Step>, s: NodeID): nat {
    if steps == [] then 0
    else HopsFrom(steps[..|steps| - 1], s) + if steps[|steps| - 1].src == s then 1 else 0
  }

  /** On every switch the hops that start there fit the free table space. */
  ghost predicate Fits(l: Ledger, steps: seq<Step>) {
    forall s | s in l.switches && HopsFrom(steps, s) > 0 ::
      l.switches[s].tcamUsage + HopsFrom(steps, s) <= l.switches[s].tcamSize
  }

  ghost predicate AllLinked(l: Ledger, steps: seq<Step>) {
    forall i | 0 <= i < |steps| :: StepLinked(l, steps[i])
  }

  lemma {:induction false} PlusAllShape(l: Ledger, steps: seq<Step>)
    ensures var m := PlusAll(l, steps);
      && m.switches.Keys == l.switches.Keys && m.links.Keys == l.links.Keys && m.serverLinks.Keys == l.serverLinks.Keys
      && m.servers == l.servers && m.torPaths == l.torPaths
      && forall s | s in l.switches ::
           && m.switches[s].tcamSize == l.switches[s].tcamSize
           && m.switches[s].tcamUsage == l.switches[s].tcamUsage + HopsFrom(steps, s)
  {
    if steps != [] { PlusAllShape(l, steps[..|steps| - 1]); }
  }

  /** Charging succeeds exactly when the hops fit, and then every hop has been added. */
  lemma {:induction false} ChargeAllExactly(l: Ledger, steps: seq<Step>)
    requires AllLinked(l, steps)
    ensures ChargeAll(l, steps).1 <==> Fits(l, steps)
    ensures ChargeAll(l, steps).1 ==> ChargeAll(l, steps).0 == PlusAll(l, steps)
  {
    if steps != [] {
      var n := |steps| - 1;
      ChargeAllExactly(l, steps[..n]);
      PlusAllShape(l, steps[..n]);
      PlusAllShape(l, steps);
      assert StepLinked(l, steps[n]);
      assert HopsFrom(steps, steps[n].src) == HopsFrom(steps[..n], steps[n].src) + 1;
      if Fits(l, steps) {
        assert Fits(l, steps[..n]);
      } else if ChargeAll(l, steps[..n]).1 {
        var s :| s in l.switches && HopsFrom(steps, s) > 0
          && l.switches[s].tcamUsage + HopsFrom(steps, s) > l.switches[s].tcamSize;
        assert s == steps[n].src;
      }
    }
  }

  // ------------------------------------------------------------ the checks before charging

  /** The link between two nodes is of the kind the end node asks for. */
  predicate LinkFor(l: Ledger, node: Node, src: NodeID, dst: NodeID) {
    if node.ServerNode? then (src, dst) in l.serverLinks else (src, dst) in l.links
  }

  /** Traffic enters and leaves at classifiers, and at programmable gateways among the core
      switches, of which there are half as many as top-of-rack switches. */
  predicate GateChecked(l: Ledger, node: Node) {
    match node
    case ServerNode(id) => id in l.servers && l.servers[id] == ClassifierServer
    case SwitchNode(id, programmable, gateway) => programmable && gateway && id in l.switches && id < l.torPaths / 2
  }

  /** Functions run on servers for them, and on programmable switches. */
  predicate HostChecked(l: Ledger, node: Node) {
    match node
    case ServerNode(id) => id in l.servers && l.servers[id] == NfviServer
    case SwitchNode(id, programmable, _) => programmable && id in l.switches
  }

  predicate InnerChecked(l: Ledger, path: seq<NodeID>) {
    && |path| >= 2
    && (forall i | 1 <= i < |path| - 1 :: path[i] in l.switches)
    && forall i | 1 <= i < |path| - 2 :: (path[i], path[i + 1]) in l.links
  }

  /** The function `n`-th on the way sits at the seam of two stages. */
  predicate SeamChecked(l: Ledger, node: Node, before: seq<NodeID>, after: seq<NodeID>)
    requires |before| >= 2 && |after| >= 2
  {
    var n := |before|;
    && before[n - 1] == node.id && after[0] == node.id
    && (before[n - 2] == before[n - 1] || LinkFor(l, node, before[n - 2], before[n - 1]))
    && (after[0] == after[1] || LinkFor(l, node, after[0], after[1]))
  }

  function ChainOf(sfci: Sfci, d: nat): seq<seq<Vnfi>> {
    if d == 0 then sfci.vnfiSequence
    else seq(|sfci.vnfiSequence|, i requires 0 <= i < |sfci.vnfiSequence| =>
               sfci.vnfiSequence[|sfci.vnfiSequence| - 1 - i])
  }

  predicate DirectionChecked(l: Ledger, dir: Direction, chain: seq<seq<Vnfi>>, paths: seq<seq<NodeID>>)
    requires forall i | 0 <= i < |chain| :: |chain[i]| == 1
  {
    && |paths| == |chain| + 1
    && (forall i | 0 <= i < |paths| :: InnerChecked(l, paths[i]))
    && paths[0][0] == dir.ingress.id && LinkFor(l, dir.ingress, paths[0][0], paths[0][1])
    && (var last := paths[|chain|]; var n := |last|;
        last[n - 1] == dir.egress.id && LinkFor(l, dir.egress, last[n - 2], last[n - 1]))
    && forall i | 0 <= i < |chain| :: SeamChecked(l, chain[i][0].node, paths[i], paths[i + 1])
  }

  /** What `add_sfci_handler` asserts of the chain, the instance and its paths. */
  predicate Checked(l: Ledger, sfc: Sfc, sfci: Sfci) {
    && 1 <= |sfc.directions| <= 2 && |sfci.paths| == |sfc.directions|
    && (forall d | 0 <= d < |sfc.directions| ::
          sfc.directions[d].ID == d && GateChecked(l, sfc.directions[d].ingress) && GateChecked(l, sfc.directions[d].egress))
    && (forall i | 0 <= i < |sfci.vnfiSequence| ::
          |sfci.vnfiSequence[i]| == 1 && HostChecked(l, sfci.vnfiSequence[i][0].node))
    && forall d | 0 <= d < |sfc.directions| ::
         DirectionChecked(l, sfc.directions[d], ChainOf(sfci, d), sfci.paths[d])
  }

  lemma DirectionLinked(l: Ledger, dir: Direction, chain: seq<seq<Vnfi>>, paths: seq<seq<NodeID>>, m: nat, i: nat)
    requires forall i | 0 <= i < |chain| :: |chain[i]| == 1
    requires DirectionChecked(l, dir, chain, paths) && m < |paths| && i + 1 < |paths[m]|
    ensures (paths[m][i], paths[m][i + 1]) in l.serverLinks || (paths[m][i], paths[m][i + 1]) in l.links
      || paths[m][i] == paths[m][i + 1]
  {
    assert InnerChecked(l, paths[m]);
    if i == 0 && m > 0 { assert SeamChecked(l, chain[m - 1][0].node, paths[m - 1], paths[m]); }
    if i == |paths[m]| - 2 && m < |chain| { assert SeamChecked(l, chain[m][0].node, paths[m], paths[m + 1]); }
  }

  lemma {:induction false} StageLinked(
    l: Ledger, id: int, d: nat, dir: Direction, chain: seq<seq<Vnfi>>, paths: seq<seq<NodeID>>, m: nat)
    requires forall i | 0 <= i < |chain| :: |chain[i]| == 1
    requires DirectionChecked(l, dir, chain, paths) && m <= |paths|
    ensures AllLinked(l, StageSteps(id, d, paths, m))
  {
    if m > 0 {
      StageLinked(l, id, d, dir, chain, paths, m - 1);
      var last := PathSteps(id, d, m - 1, paths[m - 1], HopCount(paths[m - 1]));
      forall i | 0 <= i < |last| ensures StepLinked(l, last[i]) {
        DirectionLinked(l, dir, chain, paths, m - 1, i);
      }
    }
  }

  lemma {:induction false} DirLinked(l: Ledger, sfc: Sfc, sfci: Sfci, k: nat)
    requires Checked(l, sfc, sfci) && k <= |sfci.paths|
    ensures AllLinked(l, DirSteps(sfci, k))
  {
    if k > 0 {
      DirLinked(l, sfc, sfci, k - 1);
      StageLinked(l, sfci.sfciID, k - 1, sfc.directions[k - 1], ChainOf(sfci, k - 1), sfci.paths[k - 1], |sfci.paths[k - 1]|);
    }
  }

  // ------------------------------------------------------------ VNF instances on servers

  function ListAt(v: Vnfis, s: NodeID): seq<VnfiRecord> {
    if s in v then v[s] else []
  }

  /** Paths and functions of the first direction line up. */
  predicate Aligned(sfci: Sfci) {
    && |sfci.paths| > 0 && |sfci.paths[0]| == |sfci.vnfiSequence| + 1
    && (forall m | 0 <= m < |sfci.vnfiSequence| :: |sfci.vnfiSequence[m]| == 1 && |sfci.paths[0][m]| > 0)
  }

  function ServerAt(sfci: Sfci, m: nat): NodeID
    requires Aligned(sfci) && m < |sfci.vnfiSequence|
  {
    sfci.paths[0][m][|sfci.paths[0][m]| - 1]
  }

  function RecordAt(sfci: Sfci, m: nat): VnfiRecord
    requires Aligned(sfci) && m < |sfci.vnfiSequence|
  {
    VnfiRecord(sfci.sfciID, m, sfci.vnfiSequence[m][0])
  }

  /** Places the functions from stage `m` on. */
  function PlaceFrom(v: Vnfis, sfci: Sfci, m: nat): Vnfis
    requires Aligned(sfci) && m <= |sfci.vnfiSequence|
    decreases |sfci.vnfiSequence| - m
  {
    if m == |sfci.vnfiSequence| then v
    else
      var s := ServerAt(sfci, m);
      PlaceFrom(v[s := ListAt(v, s) + [RecordAt(sfci, m)]], sfci, m + 1)
  }

  predicate IsRecord(r: VnfiRecord, sfci: Sfci, m: nat)
    requires Aligned(sfci) && m < |sfci.vnfiSequence|
  {
    r.sfciID == sfci.sfciID && r.stage == m && r.vnfi.vnfType == sfci.vnfiSequence[m][0].vnfType
  }

  /** The first record of stage `m` in a list, or the list's length. */
  function FindRecord(list: seq<VnfiRecord>, sfci: Sfci, m: nat): (i: nat)
    requires Aligned(sfci) && m < |sfci.vnfiSequence|
    ensures i <= |list|
    ensures forall j | 0 <= j < i :: !IsRecord(list[j], sfci, m)
    ensures i < |list| ==> IsRecord(list[i], sfci, m)
  {
    if list == [] || IsRecord(list[0], sfci, m) then 0 else 1 + FindRecord(list[1..], sfci, m)
  }

  /** Takes away the functions from stage `m` on; `false` where the source raises. */
  function UnplaceFrom(v: Vnfis, sfci: Sfci, m: nat): (Vnfis, bool)
    requires Aligned(sfci) && m <= |sfci.vnfiSequence|
    decreases |sfci.vnfiSequence| - m
  {
    if m == |sfci.vnfiSequence| then (v, true)
    else
      var s := ServerAt(sfci, m);
      var i := FindRecord(ListAt(v, s), sfci, m);
      if s !in v || i == |v[s]| then (v, false)
      else UnplaceFrom(v[s := v[s][..i] + v[s][i + 1..]], sfci, m + 1)
  }

  /** The records of an instance on a server, from stage `m` on, in order. */
  function Records(sfci: Sfci, s: NodeID, m: nat): seq<VnfiRecord>
    requires Aligned(sfci) && m <= |sfci.vnfiSequence|
    decreases |sfci.vnfiSequence| - m
  {
    if m == |sfci.vnfiSequence| then []
    else (if ServerAt(sfci, m) == s then [RecordAt(sfci, m)] else []) + Records(sfci, s, m + 1)
  }

  lemma {:induction false} PlaceAppends(v: Vnfis, sfci: Sfci, m: nat, s: NodeID)
    requires Aligned(sfci) && m <= |sfci.vnfiSequence|
    ensures ListAt(PlaceFrom(v, sfci, m), s) == ListAt(v, s) + Records(sfci, s, m)
    decreases |sfci.vnfiSequence| - m
  {
    if m < |sfci.vnfiSequence| {
      var t := ServerAt(sfci, m);
      PlaceAppends(v[t := ListAt(v, t) + [RecordAt(sfci, m)]], sfci, m + 1, s);
    }
  }

  /** No record in the list is the instance's. */
  predicate Foreign(list: seq<VnfiRecord>, id: int) {
    forall i | 0 <= i < |list| :: list[i].sfciID != id
  }

  lemma TakeRecord(a: seq<VnfiRecord>, rest: seq<VnfiRecord>, sfci: Sfci, m: nat)
    requires Aligned(sfci) && m < |sfci.vnfiSequence| && Foreign(a, sfci.sfciID)
    ensures var list := a + [RecordAt(sfci, m)] + rest;
      FindRecord(list, sfci, m) == |a| && list[..|a|] + list[|a| + 1..] == a + rest
  {
    var list := a + [RecordAt(sfci, m)] + rest;
    var i := FindRecord(list, sfci, m);
    assert list[|a|] == RecordAt(sfci, m);
    assert forall j | 0 <= j < |a| :: list[j] == a[j];
    assert i >= |a|;
    assert !(i > |a|);
  }

  /** On server `s`: something, the instance's records from stage `m` on, something else. */
  ghost predicate Holds(v: Vnfis, sfci: Sfci, m: nat, a: Vnfis, b: Vnfis, s: NodeID)
    requires Aligned(sfci) && m <= |sfci.vnfiSequence|
  {
    ListAt(v, s) == ListAt(a, s) + Records(sfci, s, m) + ListAt(b, s) && Foreign(ListAt(a, s), sfci.sfciID)
  }

  ghost predicate HoldsAll(v: Vnfis, sfci: Sfci, m: nat, a: Vnfis, b: Vnfis)
    requires Aligned(sfci) && m <= |sfci.vnfiSequence|
  {
    forall s :: Holds(v, sfci, m, a, b, s)
  }

  /** The list of one server once its next record is gone. */
  lemma TakeOne(v: Vnfis, sfci: Sfci, m: nat, a: Vnfis, b: Vnfis)
    requires Aligned(sfci) && m < |sfci.vnfiSequence| && Holds(v, sfci, m, a, b, ServerAt(sfci, m))
    ensures var t := ServerAt(sfci, m); var rest := Records(sfci, t, m + 1) + ListAt(b, t);
      UnplaceFrom(v, sfci, m) == UnplaceFrom(v[t := ListAt(a, t) + rest], sfci, m + 1)
  {
    var t := ServerAt(sfci, m);
    var rest := Records(sfci, t, m + 1) + ListAt(b, t);
    assert ListAt(v, t) == ListAt(a, t) + [RecordAt(sfci, m)] + rest;
    TakeRecord(ListAt(a, t), rest, sfci, m);
  }

  lemma HoldsNext(v: Vnfis, w: Vnfis, sfci: Sfci, m: nat, a: Vnfis, b: Vnfis, s: NodeID)
    requires Aligned(sfci) && m < |sfci.vnfiSequence| && Holds(v, sfci, m, a, b, s)
    requires var t := ServerAt(sfci, m);
      w == v[t := ListAt(a, t) + (Records(sfci, t, m + 1) + ListAt(b, t))]
    ensures Holds(w, sfci, m + 1, a, b, s)
  {
    var x, y, z := ListAt(a, s), Records(sfci, s, m + 1), ListAt(b, s);
    if s == ServerAt(sfci, m) {
      assert x + (y + z) == x + y + z;
    } else {
      assert [] + y == y;
    }
  }

  lemma HoldsAllNext(v: Vnfis, w: Vnfis, sfci: Sfci, m: nat, n: nat, a: Vnfis, b: Vnfis)
    requires Aligned(sfci) && m < |sfci.vnfiSequence| && n == m + 1 && HoldsAll(v, sfci, m, a, b)
    requires var t := ServerAt(sfci, m);
      w == v[t := ListAt(a, t) + (Records(sfci, t, n) + ListAt(b, t))]
    ensures HoldsAll(w, sfci, n, a, b)
  {
    forall s ensures Holds(w, sfci, n, a, b, s) {
      assert Holds(v, sfci, m, a, b, s);
      HoldsNext(v, w, sfci, m, a, b, s);
    }
  }

  lemma HoldsNothing(v: Vnfis, sfci: Sfci, a: Vnfis, b: Vnfis)
    requires Aligned(sfci) && HoldsAll(v, sfci, |sfci.vnfiSequence|, a, b)
    ensures forall s :: ListAt(v, s) == ListAt(a, s) + ListAt(b, s)
  {
    forall s ensures ListAt(v, s) == ListAt(a, s) + ListAt(b, s) {
      assert Holds(v, sfci, |sfci.vnfiSequence|, a, b, s);
    }
  }

  lemma UnplaceStep(v: Vnfis, sfci: Sfci, m: nat, a: Vnfis, b: Vnfis) returns (w: Vnfis)
    requires Aligned(sfci) && m < |sfci.vnfiSequence| && HoldsAll(v, sfci, m, a, b)
    ensures HoldsAll(w, sfci, m + 1, a, b) && UnplaceFrom(v, sfci, m) == UnplaceFrom(w, sfci, m + 1)
  {
    var t := ServerAt(sfci, m);
    w := v[t := ListAt(a, t) + (Records(sfci, t, m + 1) + ListAt(b, t))];
    assert Holds(v, sfci, m, a, b, t);
    TakeOne(v, sfci, m, a, b);
    HoldsAllNext(v, w, sfci, m, m + 1, a, b);
  }

  /** Taking an instance's functions away leaves exactly the rest, in order. */
  lemma {:induction false} UnplaceRemoves(v: Vnfis, sfci: Sfci, m: nat, a: Vnfis, b: Vnfis)
    requires Aligned(sfci) && m <= |sfci.vnfiSequence| && HoldsAll(v, sfci, m, a, b)
    ensures UnplaceFrom(v, sfci, m).1
    ensures forall s :: ListAt(UnplaceFrom(v, sfci, m).0, s) == ListAt(a, s) + ListAt(b, s)
    decreases |sfci.vnfiSequence| - m
  {
    if m == |sfci.vnfiSequence| {
      HoldsNothing(v, sfci, a, b);
    } else {
      var w := UnplaceStep(v, sfci, m, a, b);
      UnplaceRemoves(w, sfci, m + 1, a, b);
    }
  }

  // ------------------------------------------------------------ flows

  lemma MaxExists(s: set<int>)
    requires s != {}
    ensures exists m :: m in s && forall k | k in s :: k <= m
  {
    var z := Member(s);
    if s != {z} {
      MaxExists(s - {z});
      var m :| m in s - {z} && forall k | k in s - {z} :: k <= m;
      assert forall k | k in s :: k == z || k in s - {z};
      assert (if m < z then z else m) in s;
    }
  }

  function MaxOf(s: set<int>): (m: int)
    requires s != {}
    ensures m in s && forall k | k in s :: k <= m
  {
    MaxExists(s);
    var m :| m in s && forall k | k in s :: k <= m;
    m
  }

  /** The id of the next flow: one above the greatest in use. */
  function NextTraffic(flows: map<int, Flow>): (t: int)
    ensures t !in flows
    ensures if flows == map[] then t == 0 else t - 1 in flows && forall u | u in flows :: u < t
  {
    if flows == map[] then 0 else MaxOf(flows.Keys) + 1
  }

  /** One flow for each of the first `k` directions. */
  function OpenFlows(flows: map<int, Flow>, id: int, k: nat): (map<int, Flow>, map<nat, set<int>>)
  {
    if k == 0 then (flows, map[])
    else
      var (f, traffics) := OpenFlows(flows, id, k - 1);
      var t := NextTraffic(f);
      (f[t := Flow(id, k - 1)], traffics[k - 1 := {t}])
  }

  /** All flows of a record. */
  function TrafficOf(r: SfciRecord): set<int> {
    set d, t | d in r.traffics && t in r.traffics[d] :: t
  }

  // ------------------------------------------------------------ the handlers

  /** Stores an installed instance with one flow for each direction. */
  function Recorded(b: Sib, sfc: Sfc, sfci: Sfci): Sib {
    var (flows, traffics) := OpenFlows(b.flows, sfci.sfciID, |sfc.directions|);
    b.(sfcs := b.sfcs[sfc.sfcUUID := sfc],
       sfcis := b.sfcis[sfci.sfciID := SfciRecord(sfc, sfci, traffics)], flows := flows)
  }

  function AddSfci(b: Sib, sfc: Sfc, sfci: Sfci): (Sib, bool) {
    if !Checked(b.ledger, sfc, sfci) then (b, false)
    else
      CheckedAligned(b.ledger, sfc, sfci);
      var (l, ok) := ChargeAll(b.ledger, StepsOf(sfci));
      var b1 := b.(vnfis := PlaceFrom(b.vnfis, sfci, 0), ledger := l);
      if ok then (Recorded(b1, sfc, sfci), true) else (b1, false)
  }

  lemma CheckedAligned(l: Ledger, sfc: Sfc, sfci: Sfci)
    requires Checked(l, sfc, sfci)
    ensures Aligned(sfci)
  {
    assert DirectionChecked(l, sfc.directions[0], ChainOf(sfci, 0), sfci.paths[0]);
    assert forall m | 0 <= m < |sfci.paths[0]| :: InnerChecked(l, sfci.paths[0][m]);
  }

  /** The flows of every stored instance exist, and no two instances share one. */
  ghost predicate FlowsSafe(b: Sib) {
    && (forall id | id in b.sfcis :: TrafficOf(b.sfcis[id]) <= b.flows.Keys)
    && (forall i, j | i in b.sfcis && j in b.sfcis && i != j :: TrafficOf(b.sfcis[i]) !! TrafficOf(b.sfcis[j]))
  }

  function RemoveSfci(b: Sib, sfci: Sfci): (Sib, bool)
    requires Aligned(sfci)
  {
    var (v, unplaced) := UnplaceFrom(b.vnfis, sfci, 0);
    if !unplaced then (b.(vnfis := v), false)
    else
      var (l, ok) := DischargeAll(b.ledger, StepsOf(sfci));
      var b1 := b.(vnfis := v, ledger := l);
      if !ok || sfci.sfciID !in b.sfcis then (b1, false)
      else (b1.(flows := b.flows - TrafficOf(b.sfcis[sfci.sfciID]), sfcis := b.sfcis - {sfci.sfciID}), true)
  }
}
