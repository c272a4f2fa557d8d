/** The flows the simulator opens for its chain instances. */
module SimulatorFlows {
  import opened SimulatorModel
  import opened SimulatorJobs

  /** A traffic belongs to an instance's record exactly when its flow names the instance. */
  ghost predicate Owns(b: Sib, id: int)
    requires id in b.sfcis
  {
    forall t :: t in TrafficOf(b.sfcis[id]) <==> t in b.flows && b.flows[t].sfciID == id
  }

  /** Every flow belongs to exactly one stored instance. */
  ghost predicate FlowsMatch(b: Sib) {
    && (forall id | id in b.sfcis :: Owns(b, id))
    && (forall t | t in b.flows :: b.flows[t].sfciID in b.sfcis)
  }

  /** Each direction `d` below `n` has one flow, and it names the direction. */
  ghost predicate OneEach(f: map<int, Flow>, traffics: map<nat, set<int>>, id: int, n: nat) {
    && (forall d: nat :: d in traffics <==> d < n)
    && (forall d | d in traffics :: exists t :: traffics[d] == {t} && t in f && f[t] == Flow(id, d))
  }

  /** What is in `f` beyond `before` names the instance, and nothing of `before` changed. */
  ghost predicate Opened(before: map<int, Flow>, f: map<int, Flow>, traffics: map<nat, set<int>>, id: int) {
    && (forall t | t in before :: t in f && f[t] == before[t])
    && (forall t | t in f && t !in before :: f[t].sfciID == id && f[t].dirID in traffics && t in traffics[f[t].dirID])
    && (forall d, t | d in traffics && t in traffics[d] :: t in f && t !in before)
  }

  lemma OpenOneMore(g: map<int, Flow>, before: map<nat, set<int>>, id: int, n: nat, t: int)
    requires OneEach(g, before, id, n) && t !in g
    ensures OneEach(g[t := Flow(id, n)], before[n := {t}], id, n + 1)
  {
    var f, traffics := g[t := Flow(id, n)], before[n := {t}];
    forall d | d in traffics ensures exists u :: traffics[d] == {u} && u in f && f[u] == Flow(id, d) {
      if d < n {
        var u :| before[d] == {u} && u in g && g[u] == Flow(id, d);
        assert traffics[d] == {u} && u in f && f[u] == Flow(id, d);
      } else {
        assert traffics[d] == {t} && t in f && f[t] == Flow(id, d);
      }
    }
  }

  lemma OpenedOneMore(
    before: map<int, Flow>, g: map<int, Flow>, earlier: map<nat, set<int>>, id: int, n: nat, t: int)
    requires Opened(before, g, earlier, id) && n !in earlier && t !in g
    ensures Opened(before, g[t := Flow(id, n)], earlier[n := {t}], id)
  {
  }

  /** The `k` flows opened are new, name the instance, and there is one for each direction. */
  ghost predicate OpensAll(before: map<int, Flow>, f: map<int, Flow>, traffics: map<nat, set<int>>, id: int, k: nat) {
    Opened(before, f, traffics, id) && OneEach(f, traffics, id, k)
  }

  lemma OpenOne(before: map<int, Flow>, g: map<int, Flow>, earlier: map<nat, set<int>>, id: int, n: nat, t: int)
    requires OpensAll(before, g, earlier, id, n) && t !in g
    ensures OpensAll(before, g[t := Flow(id, n)], earlier[n := {t}], id, n + 1)
  {
    OpenOneMore(g, earlier, id, n, t);
    OpenedOneMore(before, g, earlier, id, n, t);
  }

  lemma OpenNone(before: map<int, Flow>, id: int)
    ensures OpensAll(before, before, map[], id, 0)
  {
  }

  /** Opening all but the last direction's flow, then that. */
  lemma OpenFlowsLast(before: map<int, Flow>, id: int, n: nat)
    ensures var (g, earlier) := OpenFlows(before, id, n); var t := NextTraffic(g);
      OpenFlows(before, id, n + 1) == (g[t := Flow(id, n)], earlier[n := {t}])
  {
  }

  lemma {:induction false} OpenFlowsOpens(before: map<int, Flow>, id: int, k: nat)
    ensures var (f, traffics) := OpenFlows(before, id, k); OpensAll(before, f, traffics, id, k)
  {
    if k == 0 {
      OpenNone(before, id);
    } else {
      var n := k - 1;
      var (g, earlier) := OpenFlows(before, id, n);
      OpenFlowsOpens(before, id, n);
      OpenFlowsLast(before, id, n);
      OpenOne(before, g, earlier, id, n, NextTraffic(g));
    }
  }

  /** The flows of all other instances are the same before and after. */
  ghost predicate OthersKeepFlows(b: Sib, after: Sib, id: int) {
    forall t :: (t in b.flows && b.flows[t].sfciID != id) || (t in after.flows && after.flows[t].sfciID != id)
      ==> t in b.flows && t in after.flows && after.flows[t] == b.flows[t]
  }

  lemma OpenKeepsMatch(b: Sib, after: Sib, id: int, r: SfciRecord, k: nat)
    requires FlowsMatch(b) && id !in b.sfcis && after.sfcis == b.sfcis[id := r]
    requires OpensAll(b.flows, after.flows, r.traffics, id, k)
    ensures FlowsMatch(after) && OthersKeepFlows(b, after, id)
  {
    forall i | i in after.sfcis ensures Owns(after, i) {
      assert i != id ==> after.sfcis[i] == b.sfcis[i] && Owns(b, i);
    }
  }

  /** An accepted addition of a new instance opens one flow for each direction. */
  lemma AddOpensFlows(b: Sib, sfc: Sfc, sfci: Sfci)
    requires FlowsMatch(b) && sfci.sfciID !in b.sfcis && AddSfci(b, sfc, sfci).1
    ensures var after := AddSfci(b, sfc, sfci).0;
      && FlowsMatch(after) && OthersKeepFlows(b, after, sfci.sfciID) && sfci.sfciID in after.sfcis
      && OneEach(after.flows, after.sfcis[sfci.sfciID].traffics, sfci.sfciID, |sfc.directions|)
  {
    var after := AddSfci(b, sfc, sfci).0;
    OpenFlowsOpens(b.flows, sfci.sfciID, |sfc.directions|);
    OpenKeepsMatch(b, after, sfci.sfciID, after.sfcis[sfci.sfciID], |sfc.directions|);
  }

  /** A successful removal closes exactly the flows of the instance. */
  lemma RemoveClosesFlows(b: Sib, sfci: Sfci)
    requires FlowsMatch(b) && Aligned(sfci) && RemoveSfci(b, sfci).1
    ensures var after := RemoveSfci(b, sfci).0;
      && FlowsMatch(after) && OthersKeepFlows(b, after, sfci.sfciID)
      && forall t | t in after.flows :: after.flows[t].sfciID != sfci.sfciID
  {
    var after := RemoveSfci(b, sfci).0;
    assert Owns(b, sfci.sfciID);
    forall i | i in after.sfcis ensures Owns(after, i) {
      assert after.sfcis[i] == b.sfcis[i] && Owns(b, i);
    }
  }
}
