/** The simulator's information base and its handlers, in the source's own loops. */
module Simulators {
  import opened Sets
  import opened SimulatorModel
  import opened SimulatorJobs
  import opened SimulatorRuns
  import opened SimulatorFlows
  import opened SimulatorTheorems

  // ------------------------------------------------------------ charging piece by piece

  lemma ChargeAllLast(l: Ledger, xs: seq<Step>, st: Step)
    ensures ChargeAll(l, xs + [st]) == var b := ChargeAll(l, xs); if b.1 then Charge(b.0, st) else b
  {
    assert (xs + [st])[..|xs|] == xs;
  }

  lemma {:induction false} ChargeAllAppend(l: Ledger, xs: seq<Step>, ys: seq<Step>)
    ensures var (m, ok) := ChargeAll(l, xs); ChargeAll(l, xs + ys) == if ok then ChargeAll(m, ys) else (m, false)
  {
    if ys == [] {
      assert xs + ys == xs;
    } else {
      var init, last := ys[..|ys| - 1], ys[|ys| - 1];
      ChargeAllAppend(l, xs, init);
      ChargeAllLast(l, xs + init, last);
      ChargeAllLast(ChargeAll(l, xs).0, init, last);
      assert xs + init + [last] == xs + ys && init + [last] == ys;
    }
  }

  lemma DischargeAllLast(l: Ledger, xs: seq<Step>, st: Step)
    ensures DischargeAll(l, xs + [st]) == var b := DischargeAll(l, xs); if b.1 then Discharge(b.0, st) else b
  {
    assert (xs + [st])[..|xs|] == xs;
  }

  lemma {:induction false} DischargeAllAppend(l: Ledger, xs: seq<Step>, ys: seq<Step>)
    ensures var (m, ok) := DischargeAll(l, xs); DischargeAll(l, xs + ys) == if ok then DischargeAll(m, ys) else (m, false)
  {
    if ys == [] {
      assert xs + ys == xs;
    } else {
      var init, last := ys[..|ys| - 1], ys[|ys| - 1];
      DischargeAllAppend(l, xs, init);
      DischargeAllLast(l, xs + init, last);
      DischargeAllLast(DischargeAll(l, xs).0, init, last);
      assert xs + init + [last] == xs + ys && init + [last] == ys;
    }
  }

  /** Once a hop is refused the later ones change nothing. */
  lemma ChargeStopped(l: Ledger, xs: seq<Step>, all: seq<Step>)
    requires xs <= all && !ChargeAll(l, xs).1
    ensures ChargeAll(l, all) == ChargeAll(l, xs)
  {
    ChargeAllAppend(l, xs, all[|xs|..]);
    assert xs + all[|xs|..] == all;
  }

  lemma DischargeStopped(l: Ledger, xs: seq<Step>, all: seq<Step>)
    requires xs <= all && !DischargeAll(l, xs).1
    ensures DischargeAll(l, all) == DischargeAll(l, xs)
  {
    DischargeAllAppend(l, xs, all[|xs|..]);
    assert xs + all[|xs|..] == all;
  }

  class SimulatorInfoBase {
    var switches: Switches
    var links: Users
    var serverLinks: Users
    const servers: map<NodeID, ServerKind>
    const torPaths: nat
    var vnfis: Vnfis
    var sfcs: map<int, Sfc>
    var sfcis: map<int, SfciRecord>
    var flows: map<int, Flow>

    ghost function Books(): Ledger
      reads this`switches, this`links, this`serverLinks
    {
      Ledger(switches, links, serverLinks, servers, torPaths)
    }

    ghost function State(): Sib
      reads this
    {
      Sib(Books(), vnfis, sfcs, sfcis, flows)
    }

    ghost predicate Valid()
      reads this
    {
      FlowsSafe(State())
    }

    constructor (
      switches: Switches, links: Users, serverLinks: Users, servers: map<NodeID, ServerKind>, torPaths: nat)
      ensures Valid()
      ensures State() == Sib(Ledger(switches, links, serverLinks, servers, torPaths), map[], map[], map[], map[])
    {
      this.switches, this.links, this.serverLinks := switches, links, serverLinks;
      this.servers, this.torPaths := servers, torPaths;
      vnfis, sfcs, sfcis, flows := map[], map[], map[], map[];
    }

    // ---------------------------------------------------------- adding

    method ChargeHop(st: Step) returns (ok: bool)
      modifies this`switches, this`links, this`serverLinks
      ensures (Books(), ok) == Charge(old(Books()), st)
    {
      var e := (st.src, st.dst);
      if st.src in switches {
        var info := switches[st.src];
        if info.tcamUsage >= info.tcamSize {
          return false;
        }
        switches := switches[st.src :=
          info.(tcamUsage := info.tcamUsage + 1, nextHop := info.nextHop[st.key := st.dst])];
      }
      if e in serverLinks {
        serverLinks := serverLinks[e := serverLinks[e] + {st.key}];
      } else if e in links {
        links := links[e := links[e] + {st.key}];
      } else {
        return st.src == st.dst;
      }
      return true;
    }

    method ChargePath(id: int, d: nat, stage: nat, path: seq<NodeID>) returns (ok: bool)
      modifies this`switches, this`links, this`serverLinks
      ensures (Books(), ok) == ChargeAll(old(Books()), PathSteps(id, d, stage, path, HopCount(path)))
    {
      ghost var l := Books();
      for hop := 0 to HopCount(path)
        invariant (Books(), true) == ChargeAll(l, PathSteps(id, d, stage, path, hop))
      {
        PathStepsNext(id, d, stage, path, hop);
        var done := ChargeHop(Step(Hop(id, d, stage, hop), path[hop], path[hop + 1]));
        if !done {
          ChargeStopped(l, PathSteps(id, d, stage, path, hop + 1), PathSteps(id, d, stage, path, HopCount(path)));
          return false;
        }
      }
      return true;
    }

    method ChargeStages(id: int, d: nat, paths: seq<seq<NodeID>>) returns (ok: bool)
      modifies this`switches, this`links, this`serverLinks
      ensures (Books(), ok) == ChargeAll(old(Books()), StageSteps(id, d, paths, |paths|))
    {
      ghost var l := Books();
      for stage := 0 to |paths|
        invariant (Books(), true) == ChargeAll(l, StageSteps(id, d, paths, stage))
      {
        ChargeAllAppend(l, StageSteps(id, d, paths, stage),
          PathSteps(id, d, stage, paths[stage], HopCount(paths[stage])));
        var done := ChargePath(id, d, stage, paths[stage]);
        if !done {
          StagePrefix(id, d, paths, stage + 1, |paths|);
          ChargeStopped(l, StageSteps(id, d, paths, stage + 1), StageSteps(id, d, paths, |paths|));
          return false;
        }
      }
      return true;
    }

    /** Charges the paths of all directions. */
    method ChargeDirections(sfc: Sfc, sfci: Sfci) returns (ok: bool)
      requires |sfc.directions| == |sfci.paths|
      requires forall d | 0 <= d < |sfc.directions| :: sfc.directions[d].ID == d
      modifies this`switches, this`links, this`serverLinks
      ensures (Books(), ok) == ChargeAll(old(Books()), StepsOf(sfci))
    {
      ghost var l := Books();
      for k := 0 to |sfc.directions|
        invariant (Books(), true) == ChargeAll(l, DirSteps(sfci, k))
      {
        var d := sfc.directions[k].ID;
        ChargeAllAppend(l, DirSteps(sfci, k), StageSteps(sfci.sfciID, d, sfci.paths[d], |sfci.paths[d]|));
        var done := ChargeStages(sfci.sfciID, d, sfci.paths[d]);
        if !done {
          DirPrefix(sfci, k + 1, |sfci.paths|);
          ChargeStopped(l, DirSteps(sfci, k + 1), StepsOf(sfci));
          return false;
        }
      }
      return true;
    }

    method PlaceVnfi(sfci: Sfci, stage: nat)
      requires Aligned(sfci) && stage < |sfci.vnfiSequence|
      modifies this`vnfis
      ensures PlaceFrom(vnfis, sfci, stage + 1) == PlaceFrom(old(vnfis), sfci, stage)
    {
      var path, vnfi := sfci.paths[0][stage], sfci.vnfiSequence[stage][0];
      var serverID := path[|path| - 1];
      var list := if serverID in vnfis then vnfis[serverID] else [];
      vnfis := vnfis[serverID := list + [VnfiRecord(sfci.sfciID, stage, vnfi)]];
    }

    /** Appends the chain's functions to the lists of their servers. */
    method PlaceVnfis(sfci: Sfci)
      requires Aligned(sfci)
      modifies this`vnfis
      ensures vnfis == PlaceFrom(old(vnfis), sfci, 0)
    {
      ghost var v := vnfis;
      for stage := 0 to |sfci.paths[0]|
        invariant stage < |sfci.paths[0]| ==> PlaceFrom(vnfis, sfci, stage) == PlaceFrom(v, sfci, 0)
        invariant stage == |sfci.paths[0]| ==> vnfis == PlaceFrom(v, sfci, 0)
      {
        if stage != |sfci.paths[0]| - 1 {
          PlaceVnfi(sfci, stage);
        }
      }
    }

    /** Opens one flow for each direction. */
    method OpenAll(sfc: Sfc, id: int) returns (traffics: map<nat, set<int>>)
      requires forall d | 0 <= d < |sfc.directions| :: sfc.directions[d].ID == d
      modifies this`flows
      ensures (flows, traffics) == OpenFlows(old(flows), id, |sfc.directions|)
    {
      ghost var f := flows;
      traffics := map[];
      for k := 0 to |sfc.directions|
        invariant (flows, traffics) == OpenFlows(f, id, k)
      {
        var d := sfc.directions[k].ID;
        var trafficID := NextTraffic(flows);
        flows := flows[trafficID := Flow(id, d)];
        traffics := traffics[d := {trafficID}];
      }
    }

    method RecordSfci(sfc: Sfc, sfci: Sfci)
      requires forall d | 0 <= d < |sfc.directions| :: sfc.directions[d].ID == d
      modifies this`sfcs, this`sfcis, this`flows
      ensures State() == Recorded(old(State()), sfc, sfci)
    {
      sfcs := sfcs[sfc.sfcUUID := sfc];
      var traffics := OpenAll(sfc, sfci.sfciID);
      sfcis := sfcis[sfci.sfciID := SfciRecord(sfc, sfci, traffics)];
    }

    /** Adds a chain instance; `ok` is false where the source raises. */
    method AddSfciHandler(sfc: Sfc, sfci: Sfci) returns (ok: bool)
      requires Valid()
      modifies this
      ensures Valid() && (State(), ok) == AddSfci(old(State()), sfc, sfci)
    {
      ghost var b := State();
      if !Checked(Ledger(switches, links, serverLinks, servers, torPaths), sfc, sfci) {
        return false;
      }
      CheckedAligned(Books(), sfc, sfci);
      PlaceVnfis(sfci);
      ok := ChargeDirections(sfc, sfci);
      assert State() == b.(vnfis := PlaceFrom(b.vnfis, sfci, 0), ledger := ChargeAll(b.ledger, StepsOf(sfci)).0);
      if ok {
        RecordSfci(sfc, sfci);
      }
      AddIsSafe(b, sfc, sfci);
    }

    // ---------------------------------------------------------- removing

    method DischargeHop(st: Step) returns (ok: bool)
      modifies this`switches, this`links, this`serverLinks
      ensures (Books(), ok) == Discharge(old(Books()), st)
    {
      var e := (st.src, st.dst);
      if st.src in switches {
        var info := switches[st.src];
        if info.tcamUsage <= 0 {
          return false;
        }
        if st.key !in info.nextHop {
          switches := switches[st.src := info.(tcamUsage := info.tcamUsage - 1)];
          return false;
        }
        switches := switches[st.src := info.(tcamUsage := info.tcamUsage - 1, nextHop := info.nextHop - {st.key})];
      }
      if e in serverLinks {
        if st.key !in serverLinks[e] {
          return false;
        }
        serverLinks := serverLinks[e := serverLinks[e] - {st.key}];
      } else if e in links {
        if st.key !in links[e] {
          return false;
        }
        links := links[e := links[e] - {st.key}];
      } else {
        return st.src == st.dst;
      }
      return true;
    }

    method DischargePath(id: int, d: nat, stage: nat, path: seq<NodeID>) returns (ok: bool)
      modifies this`switches, this`links, this`serverLinks
      ensures (Books(), ok) == DischargeAll(old(Books()), PathSteps(id, d, stage, path, HopCount(path)))
    {
      ghost var l := Books();
      for hop := 0 to HopCount(path)
        invariant (Books(), true) == DischargeAll(l, PathSteps(id, d, stage, path, hop))
      {
        PathStepsNext(id, d, stage, path, hop);
        var done := DischargeHop(Step(Hop(id, d, stage, hop), path[hop], path[hop + 1]));
        if !done {
          DischargeStopped(l, PathSteps(id, d, stage, path, hop + 1), PathSteps(id, d, stage, path, HopCount(path)));
          return false;
        }
      }
      return true;
    }

    method DischargeStages(id: int, d: nat, paths: seq<seq<NodeID>>) returns (ok: bool)
      modifies this`switches, this`links, this`serverLinks
      ensures (Books(), ok) == DischargeAll(old(Books()), StageSteps(id, d, paths, |paths|))
    {
      ghost var l := Books();
      for stage := 0 to |paths|
        invariant (Books(), true) == DischargeAll(l, StageSteps(id, d, paths, stage))
      {
        DischargeAllAppend(l, StageSteps(id, d, paths, stage),
          PathSteps(id, d, stage, paths[stage], HopCount(paths[stage])));
        var done := DischargePath(id, d, stage, paths[stage]);
        if !done {
          StagePrefix(id, d, paths, stage + 1, |paths|);
          DischargeStopped(l, StageSteps(id, d, paths, stage + 1), StageSteps(id, d, paths, |paths|));
          return false;
        }
      }
      return true;
    }

    /** Discharges the paths of all directions. */
    method DischargeDirections(sfc: Sfc, sfci: Sfci) returns (ok: bool)
      requires |sfc.directions| == |sfci.paths|
      requires forall d | 0 <= d < |sfc.directions| :: sfc.directions[d].ID == d
      modifies this`switches, this`links, this`serverLinks
      ensures (Books(), ok) == DischargeAll(old(Books()), StepsOf(sfci))
    {
      ghost var l := Books();
      for k := 0 to |sfc.directions|
        invariant (Books(), true) == DischargeAll(l, DirSteps(sfci, k))
      {
        var d := sfc.directions[k].ID;
        DischargeAllAppend(l, DirSteps(sfci, k), StageSteps(sfci.sfciID, d, sfci.paths[d], |sfci.paths[d]|));
        var done := DischargeStages(sfci.sfciID, d, sfci.paths[d]);
        if !done {
          DirPrefix(sfci, k + 1, |sfci.paths|);
          DischargeStopped(l, DirSteps(sfci, k + 1), StepsOf(sfci));
          return false;
        }
      }
      return true;
    }

    /** The scan of the list for the function of one stage. */
    method FirstRecord(list: seq<VnfiRecord>, sfci: Sfci, stage: nat) returns (i: nat)
      requires Aligned(sfci) && stage < |sfci.vnfiSequence|
      ensures i == FindRecord(list, sfci, stage)
    {
      i := 0;
      while i < |list| && !IsRecord(list[i], sfci, stage)
        invariant i <= |list| && forall j | 0 <= j < i :: !IsRecord(list[j], sfci, stage)
      {
        i := i + 1;
      }
    }

    /** Takes the function of one stage off its server's list. */
    method UnplaceVnfi(sfci: Sfci, stage: nat) returns (ok: bool)
      requires Aligned(sfci) && stage < |sfci.vnfiSequence|
      modifies this`vnfis
      ensures UnplaceFrom(old(vnfis), sfci, stage) == if ok then UnplaceFrom(vnfis, sfci, stage + 1) else (vnfis, false)
    {
      var path := sfci.paths[0][stage];
      var serverID := path[|path| - 1];
      if serverID !in vnfis {
        return false;
      }
      var list := vnfis[serverID];
      var i := FirstRecord(list, sfci, stage);
      if i == |list| {
        return false;
      }
      vnfis := vnfis[serverID := list[..i] + list[i + 1..]];
      return true;
    }

    /** Takes the chain's functions off the lists of their servers. */
    method UnplaceVnfis(sfci: Sfci) returns (ok: bool)
      requires Aligned(sfci)
      modifies this`vnfis
      ensures (vnfis, ok) == UnplaceFrom(old(vnfis), sfci, 0)
    {
      ghost var v := vnfis;
      for stage := 0 to |sfci.paths[0]|
        invariant stage < |sfci.paths[0]| ==> UnplaceFrom(vnfis, sfci, stage) == UnplaceFrom(v, sfci, 0)
        invariant stage == |sfci.paths[0]| ==> (vnfis, true) == UnplaceFrom(v, sfci, 0)
      {
        if stage != |sfci.paths[0]| - 1 {
          var found := UnplaceVnfi(sfci, stage);
          if !found {
            return false;
          }
        }
      }
      return true;
    }

    /** Drops the flows of a stored instance one by one. */
    method CloseFlows(sfciID: int)
      requires sfciID in sfcis && TrafficOf(sfcis[sfciID]) <= flows.Keys
      modifies this`flows
      ensures flows == old(flows) - TrafficOf(sfcis[sfciID])
    {
      var left := TrafficOf(sfcis[sfciID]);
      while left != {}
        invariant left <= TrafficOf(sfcis[sfciID]) && left <= flows.Keys
        invariant flows == old(flows) - (TrafficOf(sfcis[sfciID]) - left)
      {
        ghost var some := Member(left);
        var trafficID :| trafficID in left;
        flows := flows - {trafficID};
        left := left - {trafficID};
      }
    }

    /** Removes a chain instance; `ok` is false where the source raises. */
    method RemoveSfciFromBase(sfc: Sfc, sfci: Sfci) returns (ok: bool)
      requires Valid() && Aligned(sfci) && |sfc.directions| == |sfci.paths|
      requires forall d | 0 <= d < |sfc.directions| :: sfc.directions[d].ID == d
      modifies this
      ensures Valid() && (State(), ok) == RemoveSfci(old(State()), sfci)
    {
      ghost var b := State();
      ok := UnplaceVnfis(sfci);
      if !ok {
        return;
      }
      ok := DischargeDirections(sfc, sfci);
      if !ok {
        return;
      }
      if sfci.sfciID !in sfcis {
        return false;
      }
      CloseFlows(sfci.sfciID);
      sfcis := sfcis - {sfci.sfciID};
      RemoveKeepsSafe(b, State(), sfci.sfciID);
    }

    /** Removes a chain instance on request. */
    method DelSfciHandler(sfc: Sfc, sfci: Sfci) returns (ok: bool)
      requires Valid() && Aligned(sfci) && |sfc.directions| == |sfci.paths|
      requires forall d | 0 <= d < |sfc.directions| :: sfc.directions[d].ID == d
      modifies this
      ensures Valid() && (State(), ok) == RemoveSfci(old(State()), sfci)
    {
      ok := RemoveSfciFromBase(sfc, sfci);
    }

    /** Removes a chain with all its instances, in any order. In a state that a run can reach
        every removal succeeds; what is left are the books of the other chains' instances.
        `ok` is false where the source raises because the chain is not known. */
    method DelSfcHandler(sfc: Sfc, ghost init: Sib, ghost live: seq<Sfci>) returns (ok: bool, ghost left: seq<Sfci>)
      requires Valid() && Booked(init, live, State()) && Stored(State(), live)
      requires forall d | 0 <= d < |sfc.directions| :: sfc.directions[d].ID == d
      requires forall id | id in sfcis && sfcis[id].sfc.sfcUUID == sfc.sfcUUID ::
        sfcis[id].sfci in live && sfcis[id].sfci.sfciID == id && |sfcis[id].sfci.paths| == |sfc.directions|
      modifies this
      ensures Valid() && Booked(init, left, State())
      ensures Remain(live, left, old(sfcis), {}, sfc.sfcUUID) && Survive(old(sfcis), sfcis, {}, sfc.sfcUUID)
      ensures ok == (sfc.sfcUUID in old(sfcs)) && sfcs == old(sfcs) - {sfc.sfcUUID}
    {
      ghost var uuid, was := sfc.sfcUUID, sfcis;
      var items := sfcis;
      left := live;
      while items.Keys != {}
        invariant Valid() && Booked(init, left, State()) && sfcs == old(sfcs)
        invariant items.Keys <= was.Keys && forall id | id in items :: items[id] == was[id]
        invariant Remain(live, left, was, items.Keys, uuid) && Survive(was, sfcis, items.Keys, uuid)
      {
        ghost var some := Member(items.Keys);
        var sfciID :| sfciID in items;
        var info := items[sfciID];
        RemainStep(live, left, was, items.Keys, sfciID, uuid);
        SurviveStep(was, sfcis, items.Keys, sfciID, uuid);
        if info.sfc.sfcUUID == sfc.sfcUUID {
          ghost var before := left;
          left := RemoveLive(init, left, State(), info.sfci);
          var removed := RemoveSfciFromBase(sfc, info.sfci);
          RemainAfter(live, before, left, was, items.Keys, sfciID, uuid);
        }
        items := items - {sfciID};
      }
      ok := sfc.sfcUUID in sfcs;
      sfcs := sfcs - {sfc.sfcUUID};
    }
  }

  // ------------------------------------------------------------ deleting a chain

  predicate IsOf(was: map<int, SfciRecord>, id: int, uuid: int) {
    id in was && was[id].sfc.sfcUUID == uuid
  }

  /** Of the chain's live instances only those with an id in `todo` are left. */
  ghost predicate Remain(live: seq<Sfci>, left: seq<Sfci>, was: map<int, SfciRecord>, todo: set<int>, uuid: int) {
    forall x :: x in left <==> x in live && (x.sfciID in todo || !IsOf(was, x.sfciID, uuid))
  }

  /** Of the chain's records only those with an id in `todo` are left; the others are as before. */
  ghost predicate Survive(was: map<int, SfciRecord>, now: map<int, SfciRecord>, todo: set<int>, uuid: int) {
    && (forall id :: id in now <==> id in was && (id in todo || !IsOf(was, id, uuid)))
    && (forall id | id in now :: now[id] == was[id])
  }

  lemma RemainStep(live: seq<Sfci>, left: seq<Sfci>, was: map<int, SfciRecord>, todo: set<int>, id: int, uuid: int)
    requires Remain(live, left, was, todo, uuid)
    ensures !IsOf(was, id, uuid) ==> Remain(live, left, was, todo - {id}, uuid)
  {
  }

  lemma RemainAfter(
    live: seq<Sfci>, before: seq<Sfci>, left: seq<Sfci>, was: map<int, SfciRecord>, todo: set<int>, id: int, uuid: int)
    requires Remain(live, before, was, todo, uuid) && IsOf(was, id, uuid)
    requires forall x :: x in left <==> x in before && x.sfciID != id
    ensures Remain(live, left, was, todo - {id}, uuid)
  {
  }

  lemma SurviveStep(was: map<int, SfciRecord>, now: map<int, SfciRecord>, todo: set<int>, id: int, uuid: int)
    requires Survive(was, now, todo, uuid)
    ensures IsOf(was, id, uuid) ==> Survive(was, now - {id}, todo - {id}, uuid)
    ensures !IsOf(was, id, uuid) ==> Survive(was, now, todo - {id}, uuid)
  {
  }

  lemma AddKeepsSafe(b: Sib, after: Sib, id: int)
    requires FlowsSafe(b) && id in after.sfcis && after.sfcis == b.sfcis[id := after.sfcis[id]]
    requires Opened(b.flows, after.flows, after.sfcis[id].traffics, id)
    ensures FlowsSafe(after)
  {
  }

  /** No addition makes two instances share a flow. */
  lemma AddIsSafe(b: Sib, sfc: Sfc, sfci: Sfci)
    requires FlowsSafe(b)
    ensures FlowsSafe(AddSfci(b, sfc, sfci).0)
  {
    if AddSfci(b, sfc, sfci).1 {
      OpenFlowsOpens(b.flows, sfci.sfciID, |sfc.directions|);
      AddKeepsSafe(b, AddSfci(b, sfc, sfci).0, sfci.sfciID);
    }
  }

  lemma RemoveKeepsSafe(b: Sib, after: Sib, id: int)
    requires FlowsSafe(b) && id in b.sfcis && after.sfcis == b.sfcis - {id}
    requires after.flows == b.flows - TrafficOf(b.sfcis[id])
    ensures FlowsSafe(after)
  {
  }
}
