/** What the simulator's books say after any run of accepted additions and of removals. */
module SimulatorTheorems {
  import opened Nodes
  import opened SimulatorModel
  import opened SimulatorJobs
  import opened SimulatorRuns
  import opened SimulatorFlows

  // ------------------------------------------------------------ runs

  datatype Event = Added(sfc: Sfc, sfci: Sfci) | Removed(sfci: Sfci)

  function Next(b: Sib, e: Event): Sib {
    match e
    case Added(sfc, sfci) => AddSfci(b, sfc, sfci).0
    case Removed(sfci) => if Aligned(sfci) then RemoveSfci(b, sfci).0 else b
  }

  function Replay(b: Sib, es: seq<Event>): Sib {
    if es == [] then b else Next(Replay(b, es[..|es| - 1]), es[|es| - 1])
  }

  function Without(live: seq<Sfci>, id: int): seq<Sfci> {
    if live == [] then []
    else Without(live[..|live| - 1], id) + if live[|live| - 1].sfciID == id then [] else [live[|live| - 1]]
  }

  function NextLive(live: seq<Sfci>, e: Event): seq<Sfci> {
    match e
    case Added(_, sfci) => live + [sfci]
    case Removed(sfci) => Without(live, sfci.sfciID)
  }

  /** The instances added and not removed since, oldest first. */
  function LiveAfter(es: seq<Event>): seq<Sfci> {
    if es == [] then [] else NextLive(LiveAfter(es[..|es| - 1]), es[|es| - 1])
  }

  /** Additions are of ids not in use and are accepted; removals are of live instances. */
  ghost predicate LegalNext(init: Sib, live: seq<Sfci>, b: Sib, e: Event) {
    match e
    case Added(sfc, sfci) => NeverSeen(init, sfci.sfciID) && !IsLive(live, sfci.sfciID) && AddSfci(b, sfc, sfci).1
    case Removed(sfci) => sfci in live
  }

  ghost predicate Legal(init: Sib, es: seq<Event>) {
    es == [] ||
    (Legal(init, es[..|es| - 1])
     && LegalNext(init, LiveAfter(es[..|es| - 1]), Replay(init, es[..|es| - 1]), es[|es| - 1]))
  }

  lemma LegalSnoc(init: Sib, es: seq<Event>, e: Event)
    ensures Legal(init, es + [e]) <==> Legal(init, es) && LegalNext(init, LiveAfter(es), Replay(init, es), e)
    ensures LiveAfter(es + [e]) == NextLive(LiveAfter(es), e)
  {
    assert (es + [e])[..|es|] == es;
  }

  // ------------------------------------------------------------ the books of a run

  lemma {:induction false} WithoutForeign(live: seq<Sfci>, id: int)
    requires !IsLive(live, id)
    ensures Without(live, id) == live
  {
    if live != [] {
      assert live[|live| - 1].sfciID != id;
      assert forall i | 0 <= i < |live| - 1 :: live[..|live| - 1][i] == live[i];
      WithoutForeign(live[..|live| - 1], id);
    }
  }

  lemma {:induction false} WithoutIsOthers(live: seq<Sfci>, i: nat)
    requires DistinctJobs(live) && i < |live|
    ensures Without(live, live[i].sfciID) == Others(live, i)
  {
    var n := |live| - 1;
    var init := live[..n];
    if i < n {
      WithoutIsOthers(init, i);
      assert init[i + 1..] + [live[n]] == live[i + 1..];
      assert Others(live, i) == Others(init, i) + [live[n]];
    } else {
      assert !IsLive(init, live[n].sfciID);
      WithoutForeign(init, live[n].sfciID);
    }
  }

  lemma BooksOfStep(init: Sib, live: seq<Sfci>, b: Sib, e: Event)
    requires Booked(init, live, b) && LegalNext(init, live, b, e)
    ensures Booked(init, NextLive(live, e), Next(b, e))
  {
    match e {
      case Added(sfc, sfci) => AddBooks(init, live, b, sfc, sfci);
      case Removed(sfci) =>
        var i :| 0 <= i < |live| && live[i] == sfci;
        RemoveBooks(init, live, b, i);
        WithoutIsOthers(live, i);
    }
  }

  /** After every run the books are those of the live instances. */
  lemma {:induction false} BooksOfRun(init: Sib, es: seq<Event>)
    requires Covered(init.ledger) && Legal(init, es)
    ensures Booked(init, LiveAfter(es), Replay(init, es))
  {
    if es != [] {
      var before := es[..|es| - 1];
      BooksOfRun(init, before);
      BooksOfStep(init, LiveAfter(before), Replay(init, before), es[|es| - 1]);
    }
  }

  /** In every run a live instance can be removed, and a new one is accepted exactly when
      the checks pass and its hops fit the free table space. */
  lemma NextOfRun(init: Sib, es: seq<Event>, sfc: Sfc, sfci: Sfci)
    requires Covered(init.ledger) && Legal(init, es)
    ensures sfci in LiveAfter(es) ==> Aligned(sfci) && RemoveSfci(Replay(init, es), sfci).1
    ensures NeverSeen(init, sfci.sfciID) && !IsLive(LiveAfter(es), sfci.sfciID) ==>
      var l := Replay(init, es).ledger;
      (AddSfci(Replay(init, es), sfc, sfci).1 <==> Checked(l, sfc, sfci) && Fits(l, StepsOf(sfci)))
  {
    BooksOfRun(init, es);
    var live, b := LiveAfter(es), Replay(init, es);
    if sfci in live {
      var i :| 0 <= i < |live| && live[i] == sfci;
      RemoveBooks(init, live, b, i);
    }
    if NeverSeen(init, sfci.sfciID) && !IsLive(live, sfci.sfciID) {
      AddBooks(init, live, b, sfc, sfci);
    }
  }

  // ------------------------------------------------------------ reading the ledger

  /** Hop `h` of the instance goes from `a` to `b`. */
  predicate IsHop(sfci: Sfci, h: Hop, a: NodeID, b: NodeID) {
    && h.sfciID == sfci.sfciID && h.dirID < |sfci.paths| && h.stage < |sfci.paths[h.dirID]|
    && h.hop + 1 < |sfci.paths[h.dirID][h.stage]|
    && sfci.paths[h.dirID][h.stage][h.hop] == a && sfci.paths[h.dirID][h.stage][h.hop + 1] == b
  }

  lemma {:induction false} StageStepsMeaning(id: int, d: nat, paths: seq<seq<NodeID>>, m: nat, st: Step)
    requires m <= |paths|
    ensures st in StageSteps(id, d, paths, m) <==>
      var h := st.key;
      && h.sfciID == id && h.dirID == d && h.stage < m && h.hop + 1 < |paths[h.stage]|
      && paths[h.stage][h.hop] == st.src && paths[h.stage][h.hop + 1] == st.dst
  {
    if m > 0 {
      StageStepsMeaning(id, d, paths, m - 1, st);
      var last := PathSteps(id, d, m - 1, paths[m - 1], HopCount(paths[m - 1]));
      if st.key.stage == m - 1 && st.key.hop < |last| {
        assert last[st.key.hop].key == Hop(id, d, m - 1, st.key.hop);
      }
    }
  }

  lemma {:induction false} DirStepsMeaning(sfci: Sfci, k: nat, st: Step)
    requires k <= |sfci.paths|
    ensures st in DirSteps(sfci, k) <==> IsHop(sfci, st.key, st.src, st.dst) && st.key.dirID < k
  {
    if k > 0 {
      DirStepsMeaning(sfci, k - 1, st);
      OneDirection(sfci, k - 1, st);
    }
  }

  lemma OneDirection(sfci: Sfci, d: nat, st: Step)
    requires d < |sfci.paths|
    ensures st in StageSteps(sfci.sfciID, d, sfci.paths[d], |sfci.paths[d]|) <==>
      IsHop(sfci, st.key, st.src, st.dst) && st.key.dirID == d
  {
    StageStepsMeaning(sfci.sfciID, d, sfci.paths[d], |sfci.paths[d]|, st);
  }

  /** Some live instance has the hop. */
  predicate HasHop(live: seq<Sfci>, h: Hop, a: NodeID, b: NodeID) {
    exists j :: 0 <= j < |live| && IsHop(live[j], h, a, b)
  }

  lemma HasHopAppend(live: seq<Sfci>, x: Sfci, h: Hop, a: NodeID, b: NodeID)
    ensures HasHop(live + [x], h, a, b) <==> HasHop(live, h, a, b) || IsHop(x, h, a, b)
  {
    var all := live + [x];
    if HasHop(live, h, a, b) {
      var j :| 0 <= j < |live| && IsHop(live[j], h, a, b);
      assert IsHop(all[j], h, a, b);
    }
    assert all[|live|] == x;
  }

  lemma {:induction false} JobStepsMeaning(live: seq<Sfci>, h: Hop, a: NodeID, b: NodeID)
    ensures Step(h, a, b) in JobSteps(live) <==> HasHop(live, h, a, b)
  {
    if live != [] {
      var n := |live| - 1;
      JobStepsMeaning(live[..n], h, a, b);
      DirStepsMeaning(live[n], |live[n].paths|, Step(h, a, b));
      assert live == live[..n] + [live[n]];
      HasHopAppend(live[..n], live[n], h, a, b);
    }
  }

  /** What one hop changes in the table of a switch. */
  lemma PlusEntries(l: Ledger, x: Step, s: NodeID, k: Hop)
    requires Unused(l, x.key) && s in l.switches
    ensures s in Plus(l, x).switches
    ensures var t, u := l.switches[s].nextHop, Plus(l, x).switches[s].nextHop;
      && |u| == |t| + (if x.src == s then 1 else 0)
      && u == if x.src == s then t[x.key := x.dst] else t
  {
  }

  /** A key is in a switch's table exactly when it was there before or its hop was added. */
  lemma {:induction false} PlusAllEntries(l: Ledger, xs: seq<Step>, s: NodeID, k: Hop)
    requires DistinctKeys(xs) && AllUnused(l, xs) && s in l.switches
    ensures s in PlusAll(l, xs).switches
    ensures var t, u := l.switches[s].nextHop, PlusAll(l, xs).switches[s].nextHop;
      && |u| == |t| + HopsFrom(xs, s)
      && (k in t ==> k in u && u[k] == t[k])
      && forall b :: k !in t ==> ((k in u && u[k] == b) <==> Step(k, s, b) in xs)
  {
    if xs != [] {
      var n := |xs| - 1;
      PlusAllEntries(l, xs[..n], s, k);
      UnusedAfter(l, xs[..n], xs[n].key);
      PlusEntries(PlusAll(l, xs[..n]), xs[n], s, k);
      assert xs == xs[..n] + [xs[n]];
      assert forall st | st in xs[..n] :: st.key != xs[n].key;
      assert Unused(l, xs[n].key);
    }
  }

  lemma PlusUsers(l: Ledger, x: Step, e: Edge, k: Hop)
    ensures l.serverLinks.Keys == Plus(l, x).serverLinks.Keys && l.links.Keys == Plus(l, x).links.Keys
    ensures e in l.serverLinks ==>
      (k in Plus(l, x).serverLinks[e] <==> k in l.serverLinks[e] || Step(k, e.0, e.1) == Step(x.key, x.src, x.dst))
    ensures e in l.links ==>
      (k in Plus(l, x).links[e] <==>
       k in l.links[e] || (e !in l.serverLinks && Step(k, e.0, e.1) == Step(x.key, x.src, x.dst)))
  {
  }

  lemma StepsSnoc(xs: seq<Step>, st: Step)
    requires xs != []
    ensures st in xs <==> st in xs[..|xs| - 1] || st == xs[|xs| - 1]
  {
    assert xs == xs[..|xs| - 1] + [xs[|xs| - 1]];
  }

  lemma {:induction false} PlusAllUsers(l: Ledger, xs: seq<Step>, e: Edge, k: Hop)
    ensures l.serverLinks.Keys == PlusAll(l, xs).serverLinks.Keys && l.links.Keys == PlusAll(l, xs).links.Keys
    ensures e in l.serverLinks ==>
      (k in PlusAll(l, xs).serverLinks[e] <==> k in l.serverLinks[e] || Step(k, e.0, e.1) in xs)
    ensures e in l.links ==>
      (k in PlusAll(l, xs).links[e] <==> k in l.links[e] || (e !in l.serverLinks && Step(k, e.0, e.1) in xs))
  {
    if xs != [] {
      var n := |xs| - 1;
      PlusAllUsers(l, xs[..n], e, k);
      PlusUsers(PlusAll(l, xs[..n]), xs[n], e, k);
      StepsSnoc(xs, Step(k, e.0, e.1));
    }
  }

  /** The tables: each switch has used one unit for each entry beyond the initial ones, and
      those entries are exactly the live instances' hops that start at the switch. */
  lemma TablesOfRun(init: Sib, es: seq<Event>, s: NodeID, k: Hop, b: NodeID)
    requires Covered(init.ledger) && Legal(init, es) && s in init.ledger.switches
    ensures s in Replay(init, es).ledger.switches
    ensures var was, now := init.ledger.switches[s], Replay(init, es).ledger.switches[s];
      && now.tcamSize == was.tcamSize
      && now.tcamUsage - was.tcamUsage == |now.nextHop| - |was.nextHop|
      && (k in was.nextHop ==> k in now.nextHop && now.nextHop[k] == was.nextHop[k])
      && (k !in was.nextHop ==> ((k in now.nextHop && now.nextHop[k] == b) <==> HasHop(LiveAfter(es), k, s, b)))
  {
    BooksOfRun(init, es);
    var steps := JobSteps(LiveAfter(es));
    LiveUnused(init, LiveAfter(es));
    JobStepsMeaning(LiveAfter(es), k, s, b);
    ReadTable(init.ledger, steps, s, k, b);
  }

  lemma ReadTable(l: Ledger, xs: seq<Step>, s: NodeID, k: Hop, b: NodeID)
    requires DistinctKeys(xs) && AllUnused(l, xs) && s in l.switches
    ensures s in PlusAll(l, xs).switches
    ensures var was, now := l.switches[s], PlusAll(l, xs).switches[s];
      && now.tcamSize == was.tcamSize
      && now.tcamUsage - was.tcamUsage == |now.nextHop| - |was.nextHop|
      && (k in was.nextHop ==> k in now.nextHop && now.nextHop[k] == was.nextHop[k])
      && (k !in was.nextHop ==> ((k in now.nextHop && now.nextHop[k] == b) <==> Step(k, s, b) in xs))
  {
    PlusAllShape(l, xs);
    PlusAllEntries(l, xs, s, k);
  }

  /** The links: who uses a link beyond the initial users are exactly the live instances'
      hops that cross it; a pair that is a server link and a link counts as a server link. */
  lemma LinksOfRun(init: Sib, es: seq<Event>, e: Edge, k: Hop)
    requires Covered(init.ledger) && Legal(init, es)
    ensures var was, now, crosses := init.ledger, Replay(init, es).ledger, HasHop(LiveAfter(es), k, e.0, e.1);
      && was.serverLinks.Keys == now.serverLinks.Keys && was.links.Keys == now.links.Keys
      && (e in was.serverLinks ==> (k in now.serverLinks[e] <==> k in was.serverLinks[e] || crosses))
      && (e in was.links ==> (k in now.links[e] <==> k in was.links[e] || (e !in was.serverLinks && crosses)))
  {
    BooksOfRun(init, es);
    PlusAllUsers(init.ledger, JobSteps(LiveAfter(es)), e, k);
    JobStepsMeaning(LiveAfter(es), k, e.0, e.1);
  }

  // ------------------------------------------------------------ the table bound

  ghost predicate Bounded(l: Ledger) {
    forall s | s in l.switches :: l.switches[s].tcamUsage <= l.switches[s].tcamSize
  }

  lemma {:induction false} HopsFromAppend(xs: seq<Step>, ys: seq<Step>, s: NodeID)
    ensures HopsFrom(xs + ys, s) == HopsFrom(xs, s) + HopsFrom(ys, s)
  {
    if ys == [] {
      assert xs + ys == xs;
    } else {
      HopsFromAppend(xs, ys[..|ys| - 1], s);
      assert (xs + ys)[..|xs + ys| - 1] == xs + ys[..|ys| - 1];
    }
  }

  /** Fewer instances, fewer hops. */
  lemma {:induction false} WithoutHops(live: seq<Sfci>, id: int, s: NodeID)
    ensures HopsFrom(JobSteps(Without(live, id)), s) <= HopsFrom(JobSteps(live), s)
  {
    if live != [] {
      var n := |live| - 1;
      var rest := Without(live[..n], id);
      WithoutHops(live[..n], id, s);
      HopsFromAppend(JobSteps(live[..n]), StepsOf(live[n]), s);
      if live[n].sfciID != id {
        var kept := rest + [live[n]];
        assert Without(live, id) == kept && kept[..|kept| - 1] == rest && kept[|kept| - 1] == live[n];
        HopsFromAppend(JobSteps(rest), StepsOf(live[n]), s);
      } else {
        assert Without(live, id) == rest + [] == rest;
      }
    }
  }

  lemma BoundedAdd(init: Sib, live: seq<Sfci>, b: Sib, sfc: Sfc, sfci: Sfci)
    requires Booked(init, live, b) && LegalNext(init, live, b, Added(sfc, sfci)) && Bounded(b.ledger)
    ensures Bounded(AddSfci(b, sfc, sfci).0.ledger)
  {
    AddBooks(init, live, b, sfc, sfci);
    AddLedger(init, live, b.ledger, sfc, sfci);
    FittingBounded(b.ledger, StepsOf(sfci));
  }

  lemma FittingBounded(l: Ledger, steps: seq<Step>)
    requires Bounded(l) && Fits(l, steps)
    ensures Bounded(PlusAll(l, steps))
  {
    PlusAllShape(l, steps);
  }

  lemma BoundedRemove(init: Sib, live: seq<Sfci>, id: int)
    requires Bounded(PlusAll(init.ledger, JobSteps(live)))
    ensures Bounded(PlusAll(init.ledger, JobSteps(Without(live, id))))
  {
    PlusAllShape(init.ledger, JobSteps(live));
    PlusAllShape(init.ledger, JobSteps(Without(live, id)));
    forall s | s in init.ledger.switches
      ensures HopsFrom(JobSteps(Without(live, id)), s) <= HopsFrom(JobSteps(live), s)
    {
      WithoutHops(live, id, s);
    }
  }

  /** No run uses more table space than a switch has. */
  lemma {:induction false} NeverOverfull(init: Sib, es: seq<Event>)
    requires Covered(init.ledger) && Legal(init, es) && Bounded(init.ledger)
    ensures Bounded(Replay(init, es).ledger)
  {
    if es != [] {
      var before, e := es[..|es| - 1], es[|es| - 1];
      NeverOverfull(init, before);
      BooksOfRun(init, before);
      BooksOfRun(init, es);
      match e {
        case Added(sfc, sfci) => BoundedAdd(init, LiveAfter(before), Replay(init, before), sfc, sfci);
        case Removed(sfci) => BoundedRemove(init, LiveAfter(before), sfci.sfciID);
      }
    }
  }

  // ------------------------------------------------------------ flows over runs

  ghost predicate LiveFlows(b: Sib, live: seq<Sfci>) {
    forall i | 0 <= i < |live| :: live[i].sfciID in b.sfcis &&
      OneEach(b.flows, b.sfcis[live[i].sfciID].traffics, live[i].sfciID, |live[i].paths|)
  }

  lemma OneEachKept(b: Sib, after: Sib, id: int, other: int, n: nat)
    requires OthersKeepFlows(b, after, id) && other != id && other in b.sfcis && other in after.sfcis
    requires after.sfcis[other] == b.sfcis[other] && OneEach(b.flows, b.sfcis[other].traffics, other, n)
    ensures OneEach(after.flows, after.sfcis[other].traffics, other, n)
  {
    var traffics := b.sfcis[other].traffics;
    forall d | d in traffics ensures exists t :: traffics[d] == {t} && t in after.flows && after.flows[t] == Flow(other, d) {
      var t :| traffics[d] == {t} && t in b.flows && b.flows[t] == Flow(other, d);
      assert t in after.flows && after.flows[t] == Flow(other, d);
    }
  }

  lemma AddKeepsLiveFlows(b: Sib, after: Sib, live: seq<Sfci>, sfci: Sfci, r: SfciRecord)
    requires LiveFlows(b, live) && sfci.sfciID !in b.sfcis && after.sfcis == b.sfcis[sfci.sfciID := r]
    requires OthersKeepFlows(b, after, sfci.sfciID) && OneEach(after.flows, r.traffics, sfci.sfciID, |sfci.paths|)
    ensures LiveFlows(after, live + [sfci])
  {
    var longer := live + [sfci];
    forall i | 0 <= i < |longer|
      ensures longer[i].sfciID in after.sfcis
      ensures OneEach(after.flows, after.sfcis[longer[i].sfciID].traffics, longer[i].sfciID, |longer[i].paths|)
    {
      if i < |live| { OneEachKept(b, after, sfci.sfciID, live[i].sfciID, |live[i].paths|); }
    }
  }

  lemma RemoveKeepsLiveFlows(b: Sib, live: seq<Sfci>, i: nat)
    requires FlowsMatch(b) && LiveFlows(b, live) && i < |live| && Aligned(live[i]) && RemoveSfci(b, live[i]).1
    requires DistinctJobs(live)
    ensures LiveFlows(RemoveSfci(b, live[i]).0, Others(live, i))
  {
    var after, rest := RemoveSfci(b, live[i]).0, Others(live, i);
    RemoveClosesFlows(b, live[i]);
    forall j | 0 <= j < |rest|
      ensures rest[j].sfciID in after.sfcis
      ensures OneEach(after.flows, after.sfcis[rest[j].sfciID].traffics, rest[j].sfciID, |rest[j].paths|)
    {
      var k := if j < i then j else j + 1;
      assert rest[j] == live[k] && live[k].sfciID != live[i].sfciID;
      OneEachKept(b, after, live[i].sfciID, live[k].sfciID, |live[k].paths|);
    }
  }

  /** The initial flows are still there. */
  ghost predicate KeepsFlows(init: Sib, b: Sib) {
    forall t | t in init.flows :: t in b.flows && b.flows[t] == init.flows[t]
  }

  /** After every run each live instance has exactly one flow for each direction, each flow
      belongs to a stored instance, and the initial flows are untouched. */
  lemma {:induction false} FlowsOfRun(init: Sib, es: seq<Event>)
    requires Covered(init.ledger) && Legal(init, es) && FlowsMatch(init)
    ensures var b := Replay(init, es); FlowsMatch(b) && LiveFlows(b, LiveAfter(es)) && KeepsFlows(init, b)
  {
    if es != [] {
      var before, e := es[..|es| - 1], es[|es| - 1];
      FlowsOfRun(init, before);
      BooksOfRun(init, before);
      FlowsOfStep(init, LiveAfter(before), Replay(init, before), e);
    }
  }

  lemma KeptAfter(init: Sib, b: Sib, after: Sib, id: int)
    requires FlowsMatch(init) && KeepsFlows(init, b) && OthersKeepFlows(b, after, id) && id !in init.sfcis
    ensures KeepsFlows(init, after)
  {
  }

  lemma AddRecords(b: Sib, sfc: Sfc, sfci: Sfci)
    requires AddSfci(b, sfc, sfci).1
    ensures var after := AddSfci(b, sfc, sfci).0;
      && sfci.sfciID in after.sfcis && after.sfcis == b.sfcis[sfci.sfciID := after.sfcis[sfci.sfciID]]
      && after.sfcis[sfci.sfciID].sfci == sfci && |sfc.directions| == |sfci.paths|
  {
  }

  lemma FlowsAfterAdd(init: Sib, live: seq<Sfci>, b: Sib, after: Sib, sfci: Sfci, r: SfciRecord)
    requires FlowsMatch(init) && LiveFlows(b, live) && KeepsFlows(init, b)
    requires sfci.sfciID !in b.sfcis && sfci.sfciID !in init.sfcis && after.sfcis == b.sfcis[sfci.sfciID := r]
    requires OthersKeepFlows(b, after, sfci.sfciID) && OneEach(after.flows, r.traffics, sfci.sfciID, |sfci.paths|)
    ensures KeepsFlows(init, after) && LiveFlows(after, live + [sfci])
  {
    KeptAfter(init, b, after, sfci.sfciID);
    AddKeepsLiveFlows(b, after, live, sfci, r);
  }

  lemma FlowsOfAdd(init: Sib, live: seq<Sfci>, b: Sib, sfc: Sfc, sfci: Sfci)
    requires FlowsMatch(init) && FlowsMatch(b) && LiveFlows(b, live) && KeepsFlows(init, b)
    requires sfci.sfciID !in b.sfcis && sfci.sfciID !in init.sfcis && AddSfci(b, sfc, sfci).1
    ensures FlowsMatch(AddSfci(b, sfc, sfci).0) && KeepsFlows(init, AddSfci(b, sfc, sfci).0)
    ensures LiveFlows(AddSfci(b, sfc, sfci).0, live + [sfci])
  {
    AddOpensFlows(b, sfc, sfci);
    AddRecords(b, sfc, sfci);
    var after := AddSfci(b, sfc, sfci).0;
    FlowsAfterAdd(init, live, b, after, sfci, after.sfcis[sfci.sfciID]);
  }

  lemma FlowsOfRemove(init: Sib, live: seq<Sfci>, b: Sib, i: nat)
    requires FlowsMatch(init) && FlowsMatch(b) && LiveFlows(b, live) && KeepsFlows(init, b)
    requires i < |live| && DistinctJobs(live) && live[i].sfciID !in init.sfcis
    requires Aligned(live[i]) && RemoveSfci(b, live[i]).1
    ensures FlowsMatch(RemoveSfci(b, live[i]).0) && KeepsFlows(init, RemoveSfci(b, live[i]).0)
    ensures LiveFlows(RemoveSfci(b, live[i]).0, Others(live, i))
  {
    RemoveClosesFlows(b, live[i]);
    KeptAfter(init, b, RemoveSfci(b, live[i]).0, live[i].sfciID);
    RemoveKeepsLiveFlows(b, live, i);
  }

  lemma FlowsOfStep(init: Sib, live: seq<Sfci>, b: Sib, e: Event)
    requires Booked(init, live, b) && LegalNext(init, live, b, e) && FlowsMatch(init)
    requires FlowsMatch(b) && LiveFlows(b, live) && KeepsFlows(init, b)
    ensures FlowsMatch(Next(b, e)) && KeepsFlows(init, Next(b, e))
    ensures LiveFlows(Next(b, e), NextLive(live, e))
  {
    match e {
      case Added(sfc, sfci) => FlowsOfAdd(init, live, b, sfc, sfci);
      case Removed(sfci) =>
        var i :| 0 <= i < |live| && live[i] == sfci;
        RemoveBooks(init, live, b, i);
        WithoutIsOthers(live, i);
        assert NeverSeen(init, live[i].sfciID);
        FlowsOfRemove(init, live, b, i);
    }
  }

  // ------------------------------------------------------------ stored instances

  /** Each live instance is stored as it was added. */
  ghost predicate Stored(b: Sib, live: seq<Sfci>) {
    forall x | x in live :: x.sfciID in b.sfcis && b.sfcis[x.sfciID].sfci == x
  }

  lemma LiveAreOthers(live: seq<Sfci>, i: nat, x: Sfci)
    requires DistinctJobs(live) && i < |live|
    ensures x in Others(live, i) <==> x in live && x.sfciID != live[i].sfciID
  {
    if x in live && x.sfciID != live[i].sfciID {
      var j :| 0 <= j < |live| && live[j] == x;
      assert Others(live, i)[if j < i then j else j - 1] == x;
    }
    if x in Others(live, i) {
      var j :| 0 <= j < |Others(live, i)| && Others(live, i)[j] == x;
      assert live[if j < i then j else j + 1] == x;
    }
  }

  /** Removing a live instance leaves the books of the others, and their records. */
  lemma RemoveLive(init: Sib, live: seq<Sfci>, b: Sib, x: Sfci) returns (rest: seq<Sfci>)
    requires Booked(init, live, b) && x in live && x.sfciID in b.sfcis
    ensures Aligned(x) && RemoveSfci(b, x).1 && Booked(init, rest, RemoveSfci(b, x).0)
    ensures RemoveSfci(b, x).0.sfcis == b.sfcis - {x.sfciID} && RemoveSfci(b, x).0.sfcs == b.sfcs
    ensures forall y :: y in rest <==> y in live && y.sfciID != x.sfciID
  {
    var i :| 0 <= i < |live| && live[i] == x;
    RemoveBooks(init, live, b, i);
    rest := Others(live, i);
    forall y ensures y in rest <==> y in live && y.sfciID != x.sfciID { LiveAreOthers(live, i, y); }
  }

  lemma StoredAfterAdd(b: Sib, after: Sib, live: seq<Sfci>, x: Sfci, r: SfciRecord)
    requires Stored(b, live) && !IsLive(live, x.sfciID) && after.sfcis == b.sfcis[x.sfciID := r] && r.sfci == x
    ensures Stored(after, live + [x])
  {
    forall y | y in live + [x]
      ensures y.sfciID in after.sfcis && after.sfcis[y.sfciID].sfci == y
    {
      if y != x {
        var i :| 0 <= i < |live| && live[i] == y;
        assert y.sfciID != x.sfciID;
      }
    }
  }

  lemma StoredAfterRemove(b: Sib, after: Sib, live: seq<Sfci>, i: nat)
    requires Stored(b, live) && DistinctJobs(live) && i < |live| && after.sfcis == b.sfcis - {live[i].sfciID}
    ensures Stored(after, Others(live, i))
  {
    forall y | y in Others(live, i) ensures y.sfciID in after.sfcis && after.sfcis[y.sfciID].sfci == y {
      LiveAreOthers(live, i, y);
    }
  }

  lemma StoredOfStep(init: Sib, live: seq<Sfci>, b: Sib, e: Event)
    requires Booked(init, live, b) && LegalNext(init, live, b, e) && Stored(b, live)
    ensures Stored(Next(b, e), NextLive(live, e))
  {
    match e {
      case Added(sfc, sfci) =>
        var after := Next(b, e);
        AddRecords(b, sfc, sfci);
        StoredAfterAdd(b, after, live, sfci, after.sfcis[sfci.sfciID]);
      case Removed(sfci) =>
        var i :| 0 <= i < |live| && live[i] == sfci;
        WithoutIsOthers(live, i);
        var rest := RemoveLive(init, live, b, sfci);
        StoredAfterRemove(b, Next(b, e), live, i);
    }
  }

  lemma {:induction false} StoredOfRun(init: Sib, es: seq<Event>)
    requires Covered(init.ledger) && Legal(init, es)
    ensures Stored(Replay(init, es), LiveAfter(es))
  {
    if es != [] {
      var before := es[..|es| - 1];
      StoredOfRun(init, before);
      BooksOfRun(init, before);
      StoredOfStep(init, LiveAfter(before), Replay(init, before), es[|es| - 1]);
    }
  }
}
