/** Additions that are refused, and what they leave behind. */
module SimulatorRefusals {
  import opened Nodes
  import opened SimulatorModel
  import opened SimulatorJobs
  import opened SimulatorRuns
  import opened SimulatorFlows
  import opened SimulatorTheorems

  // ------------------------------------------------------------ refused additions

  /** Charging got as far as hop `k`, whose switch has no room. */
  ghost predicate StopsAt(l: Ledger, steps: seq<Step>, k: nat, got: Ledger) {
    k < |steps| && got == PlusAll(l, steps[..k]) && Fits(l, steps[..k]) && !Fits(l, steps[..k + 1])
  }

  lemma {:induction false} ChargeStops(l: Ledger, steps: seq<Step>)
    requires AllLinked(l, steps) && !Fits(l, steps)
    ensures exists k: nat :: StopsAt(l, steps, k, ChargeAll(l, steps).0)
  {
    var n := |steps| - 1;
    ChargeAllExactly(l, steps);
    ChargeAllExactly(l, steps[..n]);
    if Fits(l, steps[..n]) {
      PlusAllShape(l, steps[..n]);
      assert StepLinked(l, steps[n]) && StepLinked(PlusAll(l, steps[..n]), steps[n]);
      assert steps[..n + 1] == steps;
      assert StopsAt(l, steps, n, ChargeAll(l, steps).0);
    } else {
      ChargeStops(l, steps[..n]);
      var k: nat :| StopsAt(l, steps[..n], k, ChargeAll(l, steps[..n]).0);
      assert steps[..n][..k] == steps[..k] && steps[..n][..k + 1] == steps[..k + 1];
      assert StopsAt(l, steps, k, ChargeAll(l, steps).0);
    }
  }

  /** An addition is not atomic: refused for lack of table space, it leaves the chain's
      functions on their servers and the hops before the full switch charged, although the
      instance and its flows are not recorded. */
  lemma RefusedAddLeaves(b: Sib, sfc: Sfc, sfci: Sfci)
    requires Checked(b.ledger, sfc, sfci) && !Fits(b.ledger, StepsOf(sfci))
    ensures Aligned(sfci)
    ensures var (after, ok) := AddSfci(b, sfc, sfci);
      && !ok && after.sfcis == b.sfcis && after.flows == b.flows && after.sfcs == b.sfcs
      && (forall s :: ListAt(after.vnfis, s) == ListAt(b.vnfis, s) + Records(sfci, s, 0))
      && exists k: nat :: StopsAt(b.ledger, StepsOf(sfci), k, after.ledger)
  {
    CheckedAligned(b.ledger, sfc, sfci);
    DirLinked(b.ledger, sfc, sfci, |sfci.paths|);
    ChargeAllExactly(b.ledger, StepsOf(sfci));
    ChargeStops(b.ledger, StepsOf(sfci));
    forall s ensures ListAt(AddSfci(b, sfc, sfci).0.vnfis, s) == ListAt(b.vnfis, s) + Records(sfci, s, 0) {
      PlaceAppends(b.vnfis, sfci, 0, s);
    }
  }

  // ------------------------------------------------------------ when nothing is left behind

  /** The switch that the first path starts at, if it is one, has no room. */
  predicate FullAtFirst(l: Ledger, sfci: Sfci) {
    && Aligned(sfci) && |sfci.paths[0][0]| > 0
    && var s := sfci.paths[0][0][0]; s in l.switches && l.switches[s].tcamUsage >= l.switches[s].tcamSize
  }

  /** The first hop is that of the first path. */
  lemma FirstStep(sfci: Sfci)
    requires |sfci.paths| > 0 && |sfci.paths[0]| > 0 && |sfci.paths[0][0]| >= 2
    ensures |StepsOf(sfci)| > 0
    ensures StepsOf(sfci)[0] == Step(Hop(sfci.sfciID, 0, 0, 0), sfci.paths[0][0][0], sfci.paths[0][0][1])
  {
    var id, paths := sfci.sfciID, sfci.paths[0];
    var first := PathSteps(id, 0, 0, paths[0], HopCount(paths[0]));
    assert StageSteps(id, 0, paths, 1) == first;
    StagePrefix(id, 0, paths, 1, |paths|);
    assert DirSteps(sfci, 1) == StageSteps(id, 0, paths, |paths|);
    DirPrefix(sfci, 1, |sfci.paths|);
    assert StepsOf(sfci)[0] == first[0];
  }

  /** Once the checks pass, it crosses a link. */
  lemma FirstHop(l: Ledger, sfc: Sfc, sfci: Sfci)
    requires Checked(l, sfc, sfci)
    ensures Aligned(sfci) && |sfci.paths[0][0]| >= 2 && |StepsOf(sfci)| > 0
    ensures var st := StepsOf(sfci)[0];
      && st == Step(Hop(sfci.sfciID, 0, 0, 0), sfci.paths[0][0][0], sfci.paths[0][0][1])
      && (Crosses(st) in l.serverLinks || Crosses(st) in l.links)
  {
    CheckedAligned(l, sfc, sfci);
    assert DirectionChecked(l, sfc.directions[0], ChainOf(sfci, 0), sfci.paths[0]);
    assert InnerChecked(l, sfci.paths[0][0]);
    FirstStep(sfci);
  }

  /** Once a new hop that crosses a link has been charged the ledger is another one. */
  lemma ChargedDiffers(l: Ledger, steps: seq<Step>, k: nat)
    requires 0 < k <= |steps| && Unused(l, steps[0].key)
    requires Crosses(steps[0]) in l.serverLinks || Crosses(steps[0]) in l.links
    ensures PlusAll(l, steps[..k]) != l
  {
    PlusAllInstalls(l, steps[..k], 0);
    assert Installed(PlusAll(l, steps[..k]), steps[0]);
  }

  lemma OneHop(steps: seq<Step>, s: NodeID)
    requires |steps| > 0
    ensures HopsFrom(steps[..1], s) == if steps[0].src == s then 1 else 0
  {
    assert steps[..1][..0] == [];
  }

  lemma {:induction false} HopsGrow(steps: seq<Step>, s: NodeID)
    requires |steps| > 0 && steps[0].src == s
    ensures HopsFrom(steps, s) >= 1
  {
    if |steps| > 1 {
      HopsGrow(steps[..|steps| - 1], s);
    } else {
      OneHop(steps, s);
      assert steps[..1] == steps;
    }
  }

  /** Charging stops at the first hop exactly if its switch has no room. */
  lemma StopsAtFirst(l: Ledger, steps: seq<Step>, k: nat, got: Ledger)
    requires |steps| > 0 && StopsAt(l, steps, k, got)
    ensures k == 0 <==>
      steps[0].src in l.switches && l.switches[steps[0].src].tcamUsage >= l.switches[steps[0].src].tcamSize
  {
    var s := steps[0].src;
    if k == 0 {
      forall t ensures HopsFrom(steps[..1], t) == if t == s then 1 else 0 { OneHop(steps, t); }
    } else {
      HopsGrow(steps[..k], s);
    }
  }

  /** A refused addition leaves the ledger as it was exactly if the first switch is full. */
  lemma RefusedLedger(b: Sib, sfc: Sfc, sfci: Sfci)
    requires Checked(b.ledger, sfc, sfci) && !Fits(b.ledger, StepsOf(sfci)) && NeverSeen(b, sfci.sfciID)
    ensures AddSfci(b, sfc, sfci).0.ledger == b.ledger <==> FullAtFirst(b.ledger, sfci)
  {
    var l, steps := b.ledger, StepsOf(sfci);
    RefusedAddLeaves(b, sfc, sfci);
    FirstHop(l, sfc, sfci);
    var k: nat :| StopsAt(l, steps, k, AddSfci(b, sfc, sfci).0.ledger);
    StopsAtFirst(l, steps, k, AddSfci(b, sfc, sfci).0.ledger);
    if k > 0 { ChargedDiffers(l, steps, k); }
  }

  /** It leaves the servers' lists as they were exactly if the chain has no function. */
  lemma RefusedLists(b: Sib, sfc: Sfc, sfci: Sfci)
    requires Checked(b.ledger, sfc, sfci) && !Fits(b.ledger, StepsOf(sfci))
    ensures AddSfci(b, sfc, sfci).0.vnfis == b.vnfis <==> sfci.vnfiSequence == []
  {
    CheckedAligned(b.ledger, sfc, sfci);
    DirLinked(b.ledger, sfc, sfci, |sfci.paths|);
    ChargeAllExactly(b.ledger, StepsOf(sfci));
    if sfci.vnfiSequence != [] {
      var s := ServerAt(sfci, 0);
      PlaceAppends(b.vnfis, sfci, 0, s);
      assert |Records(sfci, s, 0)| > 0;
    }
  }

  /** Exactly when an addition of a new instance changes nothing at all: the checks refuse
      it, or the chain has no function and the very first switch is full. */
  lemma UnchangedExactly(b: Sib, sfc: Sfc, sfci: Sfci)
    requires NeverSeen(b, sfci.sfciID)
    ensures AddSfci(b, sfc, sfci).0 == b <==>
      !Checked(b.ledger, sfc, sfci) || (sfci.vnfiSequence == [] && FullAtFirst(b.ledger, sfci))
  {
    if Checked(b.ledger, sfc, sfci) {
      FirstHop(b.ledger, sfc, sfci);
      DirLinked(b.ledger, sfc, sfci, |sfci.paths|);
      ChargeAllExactly(b.ledger, StepsOf(sfci));
      if Fits(b.ledger, StepsOf(sfci)) {
        HopsGrow(StepsOf(sfci), sfci.paths[0][0][0]);
        assert sfci.sfciID in AddSfci(b, sfc, sfci).0.sfcis;
      } else {
        RefusedAddLeaves(b, sfc, sfci);
        RefusedLedger(b, sfc, sfci);
        RefusedLists(b, sfc, sfci);
      }
    }
  }

  lemma NoSuchKey(live: seq<Sfci>, k: Hop)
    requires DistinctJobs(live) && !IsLive(live, k.sfciID)
    ensures !HasKey(JobSteps(live), k)
  {
    var steps := JobSteps(live);
    JobKeys(live);
    forall i | 0 <= i < |steps| ensures steps[i].key != k {
      var j :| 0 <= j < |live| && live[j].sfciID == steps[i].key.sfciID;
    }
  }

  /** In every run: an id that is new and not live is nowhere in the books. */
  lemma NewIsNeverSeen(init: Sib, live: seq<Sfci>, b: Sib, id: int)
    requires Booked(init, live, b) && NeverSeen(init, id) && !IsLive(live, id)
    ensures NeverSeen(b, id)
  {
    forall k: Hop | k.sfciID == id ensures Unused(b.ledger, k) {
      NoSuchKey(live, k);
      UnusedAfter(init.ledger, JobSteps(live), k);
    }
    forall s ensures Foreign(ListAt(b.vnfis, s), id) {
      JobRecordsForeign(live, s, id);
      assert Foreign(ListAt(init.vnfis, s), id);
    }
  }

  /** So after every run an addition of a new instance that is not accepted changes nothing
      exactly if the checks refuse it or the first switch is full and there is no function. */
  lemma UnchangedOfRun(init: Sib, es: seq<Event>, sfc: Sfc, sfci: Sfci)
    requires Covered(init.ledger) && Legal(init, es)
    requires NeverSeen(init, sfci.sfciID) && !IsLive(LiveAfter(es), sfci.sfciID)
    ensures var b := Replay(init, es);
      AddSfci(b, sfc, sfci).0 == b <==>
        !Checked(b.ledger, sfc, sfci) || (sfci.vnfiSequence == [] && FullAtFirst(b.ledger, sfci))
  {
    BooksOfRun(init, es);
    NewIsNeverSeen(init, LiveAfter(es), Replay(init, es), sfci.sfciID);
    UnchangedExactly(Replay(init, es), sfc, sfci);
  }

  // ------------------------------------------------------------ a refusal that costs another

  function Gateway(id: int): Node {
    SwitchNode(id, true, true)
  }

  function SmallAddition(id: int): Event {
    Added(Sfc(0, [Direction(0, Gateway(1), Gateway(2))]), Sfci(id, [], [[[1, 2]]]))
  }

  /** Two links in a row; the first two switches have room for one entry and for none. */
  function NarrowNetwork(): Sib {
    var l := Ledger(
      map[1 := SwitchInfo(1, 0, map[]), 2 := SwitchInfo(0, 0, map[]), 3 := SwitchInfo(1, 0, map[])],
      map[(1, 2) := {}, (2, 3) := {}], map[], map[], 8);
    Sib(l, map[], map[], map[], map[])
  }

  function LongAddition(id: int): Event {
    Added(Sfc(0, [Direction(0, Gateway(1), Gateway(3))]), Sfci(id, [], [[[1, 2, 3]]]))
  }

  /** The hops of an instance with one path. */
  lemma OnePathSteps(id: int, path: seq<NodeID>)
    requires |path| > 0
    ensures StepsOf(Sfci(id, [], [[path]])) == PathSteps(id, 0, 0, path, |path| - 1)
  {
    var x := Sfci(id, [], [[path]]);
    assert StageSteps(id, 0, x.paths[0], 0) == [];
    assert StageSteps(id, 0, x.paths[0], 1) == [] + PathSteps(id, 0, 0, path, |path| - 1);
    assert DirSteps(x, 0) == [];
    assert DirSteps(x, 1) == [] + StageSteps(id, 0, x.paths[0], 1);
  }

  lemma LongChecked(id: int)
    ensures Checked(NarrowNetwork().ledger, LongAddition(id).sfc, LongAddition(id).sfci)
  {
    var l, e := NarrowNetwork().ledger, LongAddition(id);
    assert DirectionChecked(l, e.sfc.directions[0], ChainOf(e.sfci, 0), e.sfci.paths[0]);
  }

  lemma TwoHops(a: Step, b: Step, s: NodeID)
    ensures HopsFrom([a, b], s) == (if a.src == s then 1 else 0) + if b.src == s then 1 else 0
    ensures HopsFrom([a], s) == if a.src == s then 1 else 0
  {
    OneHop([a, b], s);
    OneHop([a], s);
    assert [a, b][..1] == [a] && [a][..1] == [a];
  }

  /** Charging the long path stops at the second switch, with the first hop charged. */
  lemma LongStops(l: Ledger, a: Step, b: Step)
    requires a.src in l.switches && b.src in l.switches && a.src != b.src && StepLinked(l, a) && StepLinked(l, b)
    requires l.switches[a.src].tcamUsage < l.switches[a.src].tcamSize
    requires l.switches[b.src].tcamUsage >= l.switches[b.src].tcamSize
    ensures ChargeAll(l, [a, b]) == (Plus(l, a), false) && !Fits(l, [a, b])
  {
    assert [a, b][..1] == [a] && [a][..0] == [];
    assert ChargeAll(l, []) == (l, true);
    assert ChargeAll(l, [a]) == (Plus(l, a), true);
    TwoHops(a, b, b.src);
  }

  lemma LongSteps(id: int)
    ensures StepsOf(LongAddition(id).sfci) == [Step(Hop(id, 0, 0, 0), 1, 2), Step(Hop(id, 0, 0, 1), 2, 3)]
  {
    OnePathSteps(id, [1, 2, 3]);
  }

  lemma ShortSteps(id: int)
    ensures StepsOf(SmallAddition(id).sfci) == [Step(Hop(id, 0, 0, 0), 1, 2)]
  {
    OnePathSteps(id, [1, 2]);
  }

  lemma ShortChecked(l: Ledger, id: int)
    requires (1, 2) in l.links && 1 in l.switches && 2 in l.switches && l.torPaths == 8
    ensures Checked(l, SmallAddition(id).sfc, SmallAddition(id).sfci)
  {
    var e := SmallAddition(id);
    assert DirectionChecked(l, e.sfc.directions[0], ChainOf(e.sfci, 0), e.sfci.paths[0]);
  }

  /** The short addition is accepted exactly if switch 1 has room. */
  lemma ShortFits(b: Sib, id: int)
    requires (1, 2) in b.ledger.links && 1 in b.ledger.switches && 2 in b.ledger.switches && b.ledger.torPaths == 8
    ensures AddSfci(b, SmallAddition(id).sfc, SmallAddition(id).sfci).1 <==>
      b.ledger.switches[1].tcamUsage < b.ledger.switches[1].tcamSize
  {
    var st := Step(Hop(id, 0, 0, 0), 1, 2);
    ShortSteps(id);
    ShortChecked(b.ledger, id);
    assert [st][..0] == [] && ChargeAll(b.ledger, []) == (b.ledger, true);
    assert ChargeAll(b.ledger, [st]) == Charge(b.ledger, st);
  }

  lemma LongRefused(b: Sib, id: int)
    requires b == NarrowNetwork()
    ensures Checked(b.ledger, LongAddition(id).sfc, LongAddition(id).sfci)
    ensures var (after, ok) := AddSfci(b, LongAddition(id).sfc, LongAddition(id).sfci);
      !ok && after.ledger == Plus(b.ledger, Step(Hop(id, 0, 0, 0), 1, 2))
  {
    LongSteps(id);
    LongChecked(id);
    LongStops(b.ledger, Step(Hop(id, 0, 0, 0), 1, 2), Step(Hop(id, 0, 0, 1), 2, 3));
  }

  /** The entry takes the room there was on switch 1. */
  lemma RoomTaken(l: Ledger, k: Hop)
    requires l == NarrowNetwork().ledger
    ensures var m := Plus(l, Step(k, 1, 2));
      && (1, 2) in l.links && 1 in l.switches && l.switches[1].tcamUsage < l.switches[1].tcamSize
      && (1, 2) in m.links && 1 in m.switches && 2 in m.switches && m.torPaths == 8 && m.switches[1].tcamUsage >= m.switches[1].tcamSize
  {
  }

  /** A refused addition that does leave something behind: the entry it leaves on the first
      switch makes the next addition fail, which would have been accepted before. */
  lemma RefusalCosts(b: Sib, id: int, other: int)
    requires b == NarrowNetwork()
    ensures var long, short := LongAddition(id), SmallAddition(other);
      var (after, ok) := AddSfci(b, long.sfc, long.sfci);
      && NeverSeen(b, id) && Checked(b.ledger, long.sfc, long.sfci) && !ok && after != b
      && AddSfci(b, short.sfc, short.sfci).1 && !AddSfci(after, short.sfc, short.sfci).1
  {
    var after := AddSfci(b, LongAddition(id).sfc, LongAddition(id).sfci).0;
    LongRefused(b, id);
    RoomTaken(b.ledger, Hop(id, 0, 0, 0));
    ShortFits(b, other);
    ShortFits(after, other);
    NobodySeen(b, id);
  }

  lemma NobodySeen(b: Sib, id: int)
    requires b == NarrowNetwork()
    ensures NeverSeen(b, id)
  {
  }

  // ------------------------------------------------------------ runs exist

  /** A network of two switches and one link, with room for one entry. */
  function SmallNetwork(): Sib {
    var l := Ledger(
      map[1 := SwitchInfo(1, 0, map[]), 2 := SwitchInfo(1, 0, map[])], map[(1, 2) := {}], map[], map[], 8);
    Sib(l, map[], map[], map[], map[])
  }

  lemma SmallIsSound(b: Sib)
    requires b == SmallNetwork()
    ensures Covered(b.ledger) && Bounded(b.ledger) && FlowsMatch(b)
    ensures forall id :: NeverSeen(b, id)
  {
  }

  /** In it an instance is accepted, so the runs these theorems speak of exist. */
  lemma SmallRun(id: int)
    ensures Covered(SmallNetwork().ledger) && Bounded(SmallNetwork().ledger) && FlowsMatch(SmallNetwork())
    ensures Legal(SmallNetwork(), [SmallAddition(id)])
  {
    var init, e := SmallNetwork(), SmallAddition(id);
    SmallIsSound(init);
    ShortFits(init, id);
    EmptyRun(init);
    LegalSnoc(init, [], e);
    assert [] + [e] == [e];
  }

  lemma EmptyRun(init: Sib)
    ensures Legal(init, []) && LiveAfter([]) == [] && Replay(init, []) == init
  {
  }
}
