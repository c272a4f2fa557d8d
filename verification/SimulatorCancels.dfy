/** Adding an instance and removing it again leaves no trace, whatever happens in between. */
module SimulatorCancels {
  import opened Nodes
  import opened SimulatorModel
  import opened SimulatorJobs
  import opened SimulatorRuns
  import opened SimulatorFlows
  import opened SimulatorTheorems

  // ------------------------------------------------------------ adding and removing cancel

  lemma {:induction false} WithoutCommutes(live: seq<Sfci>, a: int, b: int)
    ensures Without(Without(live, a), b) == Without(Without(live, b), a)
  {
    if live != [] {
      var n := |live| - 1;
      WithoutCommutes(live[..n], a, b);
      WithoutAppend(Without(live[..n], a), live[n], b);
      WithoutAppend(Without(live[..n], b), live[n], a);
      assert forall s: seq<Sfci> :: s + [] == s;
    }
  }

  lemma WithoutAppend(live: seq<Sfci>, x: Sfci, id: int)
    ensures Without(live + [x], id) == Without(live, id) + if x.sfciID == id then [] else [x]
  {
    assert (live + [x])[..|live|] == live;
  }

  lemma {:induction false} WithoutLive(live: seq<Sfci>, id: int, other: int)
    requires IsLive(Without(live, id), other)
    ensures IsLive(live, other) && other != id
  {
    var n := |live| - 1;
    var kept := Without(live, id);
    var i :| 0 <= i < |kept| && kept[i].sfciID == other;
    if i < |Without(live[..n], id)| {
      assert Without(live[..n], id)[i].sfciID == other;
      WithoutLive(live[..n], id, other);
      var j :| 0 <= j < |live[..n]| && live[..n][j].sfciID == other;
      assert live[j].sfciID == other;
    } else {
      assert live[n].sfciID == other;
    }
  }

  lemma {:induction false} WithoutKeeps(live: seq<Sfci>, id: int, x: Sfci)
    requires x in live && x.sfciID != id
    ensures x in Without(live, id)
  {
    var n := |live| - 1;
    if live[n] != x {
      assert x in live[..n];
      WithoutKeeps(live[..n], id, x);
    }
  }

  ghost predicate SameNetwork(l: Ledger, m: Ledger) {
    && l.switches.Keys == m.switches.Keys && l.links.Keys == m.links.Keys
    && l.serverLinks.Keys == m.serverLinks.Keys && l.servers == m.servers && l.torPaths == m.torPaths
  }

  /** The checks look only at which switches, servers and links there are. */
  lemma CheckedEverywhere(l: Ledger, m: Ledger, sfc: Sfc, sfci: Sfci)
    requires SameNetwork(l, m)
    requires Checked(l, sfc, sfci)
    ensures Checked(m, sfc, sfci)
  {
    forall d | 0 <= d < |sfc.directions|
      ensures DirectionChecked(m, sfc.directions[d], ChainOf(sfci, d), sfci.paths[d])
    {
      DirectionCheckedEverywhere(l, m, sfc.directions[d], ChainOf(sfci, d), sfci.paths[d]);
    }
  }

  lemma DirectionCheckedEverywhere(l: Ledger, m: Ledger, dir: Direction, chain: seq<seq<Vnfi>>, paths: seq<seq<NodeID>>)
    requires SameNetwork(l, m)
    requires forall i | 0 <= i < |chain| :: |chain[i]| == 1
    requires DirectionChecked(l, dir, chain, paths)
    ensures DirectionChecked(m, dir, chain, paths)
  {
    forall i | 0 <= i < |paths| ensures InnerChecked(m, paths[i]) {
      assert InnerChecked(l, paths[i]);
    }
    forall i | 0 <= i < |chain| ensures SeamChecked(m, chain[i][0].node, paths[i], paths[i + 1]) {
      assert SeamChecked(l, chain[i][0].node, paths[i], paths[i + 1]);
    }
  }

  /** What is accepted beside an instance is accepted without it. */
  lemma AcceptedWithout(init: Sib, live: seq<Sfci>, b: Sib, id: int, lean: Sib, sfc: Sfc, sfci: Sfci)
    requires Booked(init, live, b) && Booked(init, Without(live, id), lean)
    requires NeverSeen(init, sfci.sfciID) && !IsLive(live, sfci.sfciID) && AddSfci(b, sfc, sfci).1
    ensures LegalNext(init, Without(live, id), lean, Added(sfc, sfci))
  {
    var rest := Without(live, id);
    if IsLive(rest, sfci.sfciID) { WithoutLive(live, id, sfci.sfciID); }
    AddBooks(init, live, b, sfc, sfci);
    AddBooks(init, rest, lean, sfc, sfci);
    PlusAllShape(init.ledger, JobSteps(live));
    PlusAllShape(init.ledger, JobSteps(rest));
    CheckedEverywhere(b.ledger, lean.ledger, sfc, sfci);
    forall s | s in lean.ledger.switches && HopsFrom(StepsOf(sfci), s) > 0
      ensures lean.ledger.switches[s].tcamUsage + HopsFrom(StepsOf(sfci), s) <= lean.ledger.switches[s].tcamSize
    {
      WithoutHops(live, id, s);
    }
  }

  /** Run `b` is legal and differs from the legal run `a` by the live instance `x` only. */
  ghost predicate Leaner(init: Sib, a: seq<Event>, b: seq<Event>, x: Sfci) {
    Legal(init, a) && Legal(init, b) && x in LiveAfter(a) && LiveAfter(b) == Without(LiveAfter(a), x.sfciID)
  }

  lemma LeanStart(init: Sib, a: seq<Event>, add: Event)
    requires add.Added? && Legal(init, a + [add])
    ensures Leaner(init, a + [add], a, add.sfci)
  {
    LegalSnoc(init, a, add);
    WithoutAppend(LiveAfter(a), add.sfci, add.sfci.sfciID);
    WithoutForeign(LiveAfter(a), add.sfci.sfciID);
  }

  lemma LeanStep(init: Sib, a: seq<Event>, b: seq<Event>, x: Sfci, e: Event)
    requires Covered(init.ledger) && Leaner(init, a, b, x) && Legal(init, a + [e]) && e != Removed(x)
    ensures Leaner(init, a + [e], b + [e], x)
  {
    var live, id := LiveAfter(a), x.sfciID;
    BooksOfRun(init, a);
    BooksOfRun(init, b);
    LegalSnoc(init, a, e);
    LegalSnoc(init, b, e);
    match e {
      case Added(sfc, sfci) =>
        AcceptedWithout(init, live, Replay(init, a), id, Replay(init, b), sfc, sfci);
        assert x.sfciID != sfci.sfciID;
        WithoutAppend(live, sfci, id);
      case Removed(sfci) =>
        assert sfci.sfciID != id;
        WithoutKeeps(live, id, sfci);
        WithoutKeeps(live, sfci.sfciID, x);
        WithoutCommutes(live, id, sfci.sfciID);
    }
  }

  lemma EmptyTail<T>(x: seq<T>)
    ensures x + [] == x
  {
  }

  /** The run without the instance is legal too, and differs by that instance only. */
  lemma {:induction false} LeanRun(init: Sib, first: seq<Event>, add: Event, later: seq<Event>)
    requires Covered(init.ledger) && add.Added? && Legal(init, first + [add] + later)
    requires Removed(add.sfci) !in later
    ensures Leaner(init, first + [add] + later, first + later, add.sfci)
  {
    if later == [] {
      EmptyTail(first + [add]);
      EmptyTail(first);
      LeanStart(init, first, add);
    } else {
      var n := |later| - 1;
      var a, b, e := first + [add] + later[..n], first + later[..n], later[n];
      AppendLast(first + [add], later);
      AppendLast(first, later);
      LegalSnoc(init, a, e);
      LeanRun(init, first, add, later[..n]);
      LeanStep(init, a, b, add.sfci, e);
    }
  }

  // ------------------------------------------------------------ records and flows of a run

  /** The initial records are still there. */
  ghost predicate KeepsRecords(init: Sib, b: Sib) {
    forall id | id in init.sfcis :: id in b.sfcis && b.sfcis[id] == init.sfcis[id]
  }

  lemma RecordsOfStep(init: Sib, live: seq<Sfci>, b: Sib, e: Event)
    requires Booked(init, live, b) && LegalNext(init, live, b, e) && Stored(b, live) && KeepsRecords(init, b)
    ensures KeepsRecords(init, Next(b, e))
  {
    match e {
      case Added(sfc, sfci) => AddRecords(b, sfc, sfci);
      case Removed(sfci) =>
        var i :| 0 <= i < |live| && live[i] == sfci;
        assert NeverSeen(init, live[i].sfciID);
        var rest := RemoveLive(init, live, b, sfci);
    }
  }

  lemma {:induction false} RecordsOfRun(init: Sib, es: seq<Event>)
    requires Covered(init.ledger) && Legal(init, es)
    ensures KeepsRecords(init, Replay(init, es))
  {
    if es != [] {
      var before := es[..|es| - 1];
      RecordsOfRun(init, before);
      BooksOfRun(init, before);
      StoredOfRun(init, before);
      RecordsOfStep(init, LiveAfter(before), Replay(init, before), es[|es| - 1]);
    }
  }

  /** The instance has a flow in the direction. */
  ghost predicate HasFlow(b: Sib, id: int, d: nat) {
    exists t :: t in b.flows && b.flows[t] == Flow(id, d)
  }

  /** A live instance with the id has the direction. */
  predicate LiveDirection(live: seq<Sfci>, id: int, d: nat) {
    exists i | 0 <= i < |live| :: live[i].sfciID == id && d < |live[i].paths|
  }

  lemma LiveHasFlow(b: Sib, live: seq<Sfci>, id: int, d: nat)
    requires LiveFlows(b, live) && LiveDirection(live, id, d)
    ensures HasFlow(b, id, d)
  {
    var i :| 0 <= i < |live| && live[i].sfciID == id && d < |live[i].paths|;
    var traffics := b.sfcis[id].traffics;
    var t :| traffics[d] == {t} && t in b.flows && b.flows[t] == Flow(id, d);
  }

  lemma FlowOfLive(b: Sib, live: seq<Sfci>, i: nat, t: int)
    requires FlowsMatch(b) && LiveFlows(b, live) && i < |live| && t in b.flows && b.flows[t].sfciID == live[i].sfciID
    ensures LiveDirection(live, b.flows[t].sfciID, b.flows[t].dirID)
  {
    var id := live[i].sfciID;
    assert Owns(b, id);
    var d :| d in b.sfcis[id].traffics && t in b.sfcis[id].traffics[d];
    var u :| b.sfcis[id].traffics[d] == {u} && u in b.flows && b.flows[u] == Flow(id, d);
    assert u == t;
  }

  lemma FlowOfInitial(init: Sib, b: Sib, t: int)
    requires FlowsMatch(init) && FlowsMatch(b) && KeepsRecords(init, b) && KeepsFlows(init, b)
    requires t in b.flows && b.flows[t].sfciID in init.sfcis
    ensures t in init.flows && init.flows[t] == b.flows[t]
  {
    var id := b.flows[t].sfciID;
    assert Owns(b, id) && Owns(init, id);
  }

  /** After every run there are the initial flows and those of the live instances, one for
      each direction, and nothing else. */
  lemma PairsOfRun(init: Sib, es: seq<Event>, id: int, d: nat)
    requires Covered(init.ledger) && Legal(init, es) && FlowsMatch(init)
    ensures HasFlow(Replay(init, es), id, d) <==> HasFlow(init, id, d) || LiveDirection(LiveAfter(es), id, d)
  {
    var b, live := Replay(init, es), LiveAfter(es);
    FlowsOfRun(init, es);
    BooksOfRun(init, es);
    RecordsOfRun(init, es);
    if HasFlow(b, id, d) {
      var t :| t in b.flows && b.flows[t] == Flow(id, d);
      if id in init.sfcis {
        FlowOfInitial(init, b, t);
      } else {
        var i :| 0 <= i < |live| && live[i].sfciID == id;
        FlowOfLive(b, live, i, t);
      }
    }
    if LiveDirection(live, id, d) { LiveHasFlow(b, live, id, d); }
  }

  /** Two runs that leave the same live instances store the same instances. */
  lemma SameStored(init: Sib, a: seq<Event>, b: seq<Event>, id: int)
    requires Covered(init.ledger) && Legal(init, a) && Legal(init, b) && LiveAfter(a) == LiveAfter(b)
    ensures id in Replay(init, a).sfcis <==> id in Replay(init, b).sfcis
    ensures id in Replay(init, a).sfcis ==> Replay(init, a).sfcis[id].sfci == Replay(init, b).sfcis[id].sfci
  {
    var live := LiveAfter(a);
    BooksOfRun(init, a);
    BooksOfRun(init, b);
    RecordsOfRun(init, a);
    RecordsOfRun(init, b);
    StoredOfRun(init, a);
    StoredOfRun(init, b);
    if IsLive(live, id) {
      var i :| 0 <= i < |live| && live[i].sfciID == id;
      assert live[i] in live;
    }
  }

  // ------------------------------------------------------------ adding and removing cancel

  /** All the books agree, except that a chain once seen stays known and that flows may have
      other numbers. */
  ghost predicate SameBooks(a: Sib, b: Sib) {
    && a.ledger == b.ledger && (forall s :: ListAt(a.vnfis, s) == ListAt(b.vnfis, s))
    && a.sfcis.Keys == b.sfcis.Keys && (forall id | id in a.sfcis :: a.sfcis[id].sfci == b.sfcis[id].sfci)
    && forall id, d: nat :: HasFlow(a, id, d) <==> HasFlow(b, id, d)
  }

  lemma SameLiveSameBooks(init: Sib, a: seq<Event>, b: seq<Event>)
    requires Covered(init.ledger) && FlowsMatch(init) && Legal(init, a) && Legal(init, b)
    requires LiveAfter(a) == LiveAfter(b)
    ensures SameBooks(Replay(init, a), Replay(init, b))
  {
    BooksOfRun(init, a);
    BooksOfRun(init, b);
    forall id
      ensures id in Replay(init, a).sfcis <==> id in Replay(init, b).sfcis
      ensures id in Replay(init, a).sfcis ==> Replay(init, a).sfcis[id].sfci == Replay(init, b).sfcis[id].sfci
    {
      SameStored(init, a, b, id);
    }
    forall id, d: nat ensures HasFlow(Replay(init, a), id, d) <==> HasFlow(Replay(init, b), id, d) {
      PairsOfRun(init, a, id, d);
      PairsOfRun(init, b, id, d);
    }
  }

  /** Adding an instance and removing it, whatever happens in between, leaves every table,
      every link, every server's list, every stored instance and every flow as if neither
      had happened. */
  lemma AddRemoveCancels(init: Sib, first: seq<Event>, add: Event, later: seq<Event>)
    requires Covered(init.ledger) && FlowsMatch(init) && add.Added? && Removed(add.sfci) !in later
    requires Legal(init, first + [add] + later)
    ensures var all := first + [add] + later + [Removed(add.sfci)];
      Legal(init, all) && Legal(init, first + later) && SameBooks(Replay(init, all), Replay(init, first + later))
  {
    var most, all := first + [add] + later, first + [add] + later + [Removed(add.sfci)];
    LeanRun(init, first, add, later);
    LegalSnoc(init, most, Removed(add.sfci));
    SameLiveSameBooks(init, all, first + later);
  }

  /** Opening flows and closing them again leaves the old ones. */
  lemma OpenThenClose(before: map<int, Flow>, f: map<int, Flow>, r: SfciRecord, id: int)
    requires Opened(before, f, r.traffics, id)
    ensures f - TrafficOf(r) == before
  {
    forall t | t in f && t !in before ensures t in TrafficOf(r) {
      var d := f[t].dirID;
      assert d in r.traffics && t in r.traffics[d];
    }
    var left := f - TrafficOf(r);
    forall t ensures t in left <==> t in before {
      assert t in left <==> t in f && t !in TrafficOf(r);
      assert t in before ==> t in f && t !in TrafficOf(r);
    }
    assert forall t | t in before :: left[t] == before[t];
  }

  /** The records and flows after an accepted addition and the removal of the instance. */
  lemma RecordsAddThenRemove(b: Sib, added: Sib, after: Sib, sfc: Sfc, sfci: Sfci)
    requires sfci.sfciID !in b.sfcis && AddSfci(b, sfc, sfci) == (added, true)
    requires Aligned(sfci) && RemoveSfci(added, sfci) == (after, true)
    ensures after.sfcis == b.sfcis && after.flows == b.flows && after.sfcs == b.sfcs[sfc.sfcUUID := sfc]
  {
    var id := sfci.sfciID;
    RecordsAdded(b, added, sfc, sfci);
    RecordsRemoved(added, after, sfci);
    OpenThenClose(b.flows, added.flows, added.sfcis[id], id);
    StoreThenDrop(b.sfcis, id, added.sfcis[id]);
  }

  lemma StoreThenDrop<T>(m: map<int, T>, id: int, x: T)
    requires id !in m
    ensures m[id := x] - {id} == m
  {
  }

  lemma RecordsAdded(b: Sib, added: Sib, sfc: Sfc, sfci: Sfci)
    requires AddSfci(b, sfc, sfci) == (added, true)
    ensures sfci.sfciID in added.sfcis && added.sfcis == b.sfcis[sfci.sfciID := added.sfcis[sfci.sfciID]]
    ensures added.sfcs == b.sfcs[sfc.sfcUUID := sfc]
    ensures Opened(b.flows, added.flows, added.sfcis[sfci.sfciID].traffics, sfci.sfciID)
  {
    OpenFlowsOpens(b.flows, sfci.sfciID, |sfc.directions|);
  }

  lemma RecordsRemoved(added: Sib, after: Sib, sfci: Sfci)
    requires Aligned(sfci) && RemoveSfci(added, sfci) == (after, true)
    ensures sfci.sfciID in added.sfcis && after.sfcis == added.sfcis - {sfci.sfciID}
    ensures after.flows == added.flows - TrafficOf(added.sfcis[sfci.sfciID]) && after.sfcs == added.sfcs
  {
  }

  /** Its ledger and lists. */
  lemma BooksAddThenRemove(init: Sib, live: seq<Sfci>, b: Sib, added: Sib, sfc: Sfc, sfci: Sfci)
    requires Booked(init, live, b) && NeverSeen(init, sfci.sfciID) && !IsLive(live, sfci.sfciID)
    requires AddSfci(b, sfc, sfci) == (added, true)
    ensures Aligned(sfci) && RemoveSfci(added, sfci).1 && Booked(init, live, RemoveSfci(added, sfci).0)
    ensures sfci.sfciID !in b.sfcis
  {
    AddBooks(init, live, b, sfc, sfci);
    var longer := live + [sfci];
    RemoveBooks(init, longer, added, |live|);
    assert Others(longer, |live|) == live;
  }

  /** Removing the instance just added brings back everything exactly; only its chain stays
      known. */
  lemma AddThenRemove(init: Sib, es: seq<Event>, sfc: Sfc, sfci: Sfci)
    requires Covered(init.ledger) && Legal(init, es + [Added(sfc, sfci)])
    ensures Aligned(sfci)
    ensures var b := Replay(init, es); var (after, ok) := RemoveSfci(AddSfci(b, sfc, sfci).0, sfci);
      && ok && after.ledger == b.ledger && (forall s :: ListAt(after.vnfis, s) == ListAt(b.vnfis, s))
      && after.sfcis == b.sfcis && after.flows == b.flows && after.sfcs == b.sfcs[sfc.sfcUUID := sfc]
  {
    var live, b := LiveAfter(es), Replay(init, es);
    LegalSnoc(init, es, Added(sfc, sfci));
    BooksOfRun(init, es);
    var added := AddSfci(b, sfc, sfci).0;
    BooksAddThenRemove(init, live, b, added, sfc, sfci);
    RecordsAddThenRemove(b, added, RemoveSfci(added, sfci).0, sfc, sfci);
  }
}
