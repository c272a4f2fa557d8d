/** Where the functions of the live instances run. */
module SimulatorHosts {
  import opened Nodes
  import opened SimulatorModel
  import opened SimulatorJobs
  import opened SimulatorRuns
  import opened SimulatorTheorems
  import opened SimulatorChecks

  /** Function `k` of the instance runs at `s`, and `r` is its record. */
  predicate RunsAt(sfci: Sfci, k: int, s: NodeID, r: VnfiRecord) {
    && 0 <= k < |sfci.vnfiSequence| && |sfci.vnfiSequence[k]| == 1
    && sfci.vnfiSequence[k][0].node.id == s && r == VnfiRecord(sfci.sfciID, k, sfci.vnfiSequence[k][0])
  }

  /** Each path of the first direction ends at the node of its function. */
  ghost predicate AtHome(sfci: Sfci) {
    && Aligned(sfci)
    && forall k | 0 <= k < |sfci.vnfiSequence| :: MeetsAt(sfci.paths[0], k, sfci.vnfiSequence[k][0].node)
  }

  lemma {:induction false} RecordsMean(sfci: Sfci, s: NodeID, m: nat, r: VnfiRecord)
    requires AtHome(sfci) && m <= |sfci.vnfiSequence|
    ensures r in Records(sfci, s, m) <==> exists k :: m <= k && RunsAt(sfci, k, s, r)
    decreases |sfci.vnfiSequence| - m
  {
    if m < |sfci.vnfiSequence| {
      RecordsMean(sfci, s, m + 1, r);
      assert MeetsAt(sfci.paths[0], m, sfci.vnfiSequence[m][0].node);
      assert ServerAt(sfci, m) == sfci.vnfiSequence[m][0].node.id;
      if exists k :: m <= k && RunsAt(sfci, k, s, r) {
        var k :| m <= k && RunsAt(sfci, k, s, r);
        assert k == m || m + 1 <= k;
      }
      if r in Records(sfci, s, m) && r !in Records(sfci, s, m + 1) {
        assert RunsAt(sfci, m, s, r);
      }
    }
  }

  lemma {:induction false} JobRecordsMean(live: seq<Sfci>, s: NodeID, r: VnfiRecord)
    requires AllAligned(live) && forall x | x in live :: AtHome(x)
    ensures r in JobRecords(live, s) <==> exists x, k :: x in live && RunsAt(x, k, s, r)
  {
    if live != [] {
      var n := |live| - 1;
      assert live == live[..n] + [live[n]];
      JobRecordsMean(live[..n], s, r);
      RecordsMean(live[n], s, 0, r);
      if r in JobRecords(live[..n], s) {
        var x, k :| x in live[..n] && RunsAt(x, k, s, r);
        assert x in live;
      }
      if exists x, k :: x in live && RunsAt(x, k, s, r) {
        var x, k :| x in live && RunsAt(x, k, s, r);
        assert x in live[..n] || x == live[n];
      }
    }
  }

  predicate SameKey(a: VnfiRecord, b: VnfiRecord) {
    a.sfciID == b.sfciID && a.stage == b.stage
  }

  /** No function of an instance is there twice. */
  predicate NoneTwice(list: seq<VnfiRecord>) {
    forall i, j | 0 <= i < j < |list| :: !SameKey(list[i], list[j])
  }

  lemma {:induction false} RecordsOnce(sfci: Sfci, s: NodeID, m: nat)
    requires Aligned(sfci) && m <= |sfci.vnfiSequence|
    ensures NoneTwice(Records(sfci, s, m))
    ensures forall i | 0 <= i < |Records(sfci, s, m)| ::
      Records(sfci, s, m)[i].sfciID == sfci.sfciID && Records(sfci, s, m)[i].stage >= m
    decreases |sfci.vnfiSequence| - m
  {
    if m < |sfci.vnfiSequence| { RecordsOnce(sfci, s, m + 1); }
  }

  lemma {:induction false} JobRecordsOnce(live: seq<Sfci>, s: NodeID)
    requires AllAligned(live) && DistinctJobs(live)
    ensures NoneTwice(JobRecords(live, s))
    ensures forall i | 0 <= i < |JobRecords(live, s)| :: IsLive(live, JobRecords(live, s)[i].sfciID)
  {
    if live != [] {
      var n := |live| - 1;
      var before, last := JobRecords(live[..n], s), Records(live[n], s, 0);
      JobRecordsOnce(live[..n], s);
      RecordsOnce(live[n], s, 0);
      forall i | 0 <= i < |before| ensures IsLive(live, before[i].sfciID) && before[i].sfciID != live[n].sfciID {
        var j :| 0 <= j < |live[..n]| && live[..n][j].sfciID == before[i].sfciID;
        assert live[j].sfciID == before[i].sfciID;
      }
      assert live[n].sfciID == live[n].sfciID && IsLive(live, live[n].sfciID);
    }
  }

  lemma {:induction false} WithoutMember(live: seq<Sfci>, id: int, x: Sfci)
    requires x in Without(live, id)
    ensures x in live
  {
    var n := |live| - 1;
    if x in Without(live[..n], id) { WithoutMember(live[..n], id, x); }
  }

  lemma AcceptedAtHome(b: Sib, sfc: Sfc, sfci: Sfci)
    requires AddSfci(b, sfc, sfci).1
    ensures AtHome(sfci)
  {
    CheckedAligned(b.ledger, sfc, sfci);
    AcceptedPaths(b, sfc, sfci);
  }

  lemma {:induction false} LiveAtHome(init: Sib, es: seq<Event>)
    requires Legal(init, es)
    ensures forall x | x in LiveAfter(es) :: AtHome(x)
  {
    if es != [] {
      var before, e := es[..|es| - 1], es[|es| - 1];
      LiveAtHome(init, before);
      forall x | x in LiveAfter(es) ensures AtHome(x) {
        match e {
          case Added(sfc, sfci) =>
            assert x in LiveAfter(before) || x == sfci;
            AcceptedAtHome(Replay(init, before), sfc, sfci);
          case Removed(sfci) => WithoutMember(LiveAfter(before), sfci.sfciID, x);
        }
      }
    }
  }

  /** After every run the list of a node has, behind what it had at the start, exactly the
      functions of the live instances that name this node, each once. */
  lemma HostsOfRun(init: Sib, es: seq<Event>, s: NodeID, r: VnfiRecord)
    requires Covered(init.ledger) && Legal(init, es)
    ensures var was, now := ListAt(init.vnfis, s), ListAt(Replay(init, es).vnfis, s);
      && was <= now && NoneTwice(now[|was|..])
      && (r in now[|was|..] <==> exists x, k :: x in LiveAfter(es) && RunsAt(x, k, s, r))
  {
    var live := LiveAfter(es);
    var was, now := ListAt(init.vnfis, s), ListAt(Replay(init, es).vnfis, s);
    BooksOfRun(init, es);
    LiveAtHome(init, es);
    assert now == was + JobRecords(live, s);
    assert now[|was|..] == JobRecords(live, s);
    JobRecordsMean(live, s, r);
    JobRecordsOnce(live, s);
  }
}
