/** The simulator's books over whole runs: after any sequence of accepted additions and of
    removals they are those of the chain instances still there, and of nothing else. */
module SimulatorRuns {
  import opened SimulatorModel
  import opened SimulatorJobs

  // ------------------------------------------------------------ what is installed

  /** Usage covers the entries there are. */
  ghost predicate Covered(l: Ledger) {
    forall s | s in l.switches :: |l.switches[s].nextHop| <= l.switches[s].tcamUsage
  }

  /** The hop's entry and reservation are there. */
  ghost predicate Installed(l: Ledger, st: Step) {
    && StepLinked(l, st)
    && (st.src in l.switches ==> st.key in l.switches[st.src].nextHop)
    && (Crosses(st) in l.serverLinks ==> st.key in l.serverLinks[Crosses(st)])
    && (Crosses(st) !in l.serverLinks && Crosses(st) in l.links ==> st.key in l.links[Crosses(st)])
  }

  lemma UnusedAfterPlus(l: Ledger, x: Step, k: Hop)
    requires Unused(l, k) && x.key != k
    ensures Unused(Plus(l, x), k)
  {
  }

  lemma {:induction false} UnusedAfter(l: Ledger, xs: seq<Step>, k: Hop)
    requires Unused(l, k) && !HasKey(xs, k)
    ensures Unused(PlusAll(l, xs), k)
  {
    if xs != [] {
      UnusedAfter(l, xs[..|xs| - 1], k);
      UnusedAfterPlus(PlusAll(l, xs[..|xs| - 1]), xs[|xs| - 1], k);
    }
  }

  lemma PlusInstalls(l: Ledger, x: Step, st: Step)
    requires StepLinked(l, st) && (x == st || Installed(l, st))
    ensures Installed(Plus(l, x), st)
  {
  }

  lemma {:induction false} PlusAllInstalls(l: Ledger, xs: seq<Step>, i: nat)
    requires i < |xs| && StepLinked(l, xs[i])
    ensures Installed(PlusAll(l, xs), xs[i])
  {
    var n := |xs| - 1;
    PlusAllShape(l, xs[..n]);
    if i < n { PlusAllInstalls(l, xs[..n], i); }
    PlusInstalls(PlusAll(l, xs[..n]), xs[n], xs[i]);
  }

  lemma PlusCovered(l: Ledger, x: Step)
    requires Covered(l) && Unused(l, x.key)
    ensures Covered(Plus(l, x))
  {
    if x.src in l.switches {
      assert |l.switches[x.src].nextHop[x.key := x.dst]| == |l.switches[x.src].nextHop| + 1;
    }
  }

  lemma {:induction false} PlusAllCovered(l: Ledger, xs: seq<Step>)
    requires Covered(l) && AllUnused(l, xs) && DistinctKeys(xs)
    ensures Covered(PlusAll(l, xs))
  {
    if xs != [] {
      var n := |xs| - 1;
      PlusAllCovered(l, xs[..n]);
      UnusedAfter(l, xs[..n], xs[n].key);
      PlusCovered(PlusAll(l, xs[..n]), xs[n]);
    }
  }

  // ------------------------------------------------------------ discharging

  /** Taking one installed hop away succeeds, and other hops stay installed. */
  lemma DischargeInstalled(l: Ledger, x: Step)
    requires Covered(l) && Installed(l, x)
    ensures Discharge(l, x) == (Minus(l, x), true)
    ensures Covered(Minus(l, x))
    ensures forall st: Step | st.key != x.key && Installed(l, st) :: Installed(Minus(l, x), st)
  {
    if x.src in l.switches {
      var t := l.switches[x.src].nextHop;
      assert (t - {x.key}).Keys == t.Keys - {x.key};
      assert |t - {x.key}| == |t| - 1;
    }
  }

  lemma {:induction false} DischargeAllInstalled(l: Ledger, steps: seq<Step>)
    requires Covered(l) && DistinctKeys(steps)
    requires forall i | 0 <= i < |steps| :: Installed(l, steps[i])
    ensures DischargeAll(l, steps) == (MinusAll(l, steps), true) && Covered(MinusAll(l, steps))
    ensures forall st: Step | !HasKey(steps, st.key) && Installed(l, st) :: Installed(MinusAll(l, steps), st)
  {
    if steps != [] {
      var n := |steps| - 1;
      DischargeAllInstalled(l, steps[..n]);
      assert !HasKey(steps[..n], steps[n].key);
      DischargeInstalled(MinusAll(l, steps[..n]), steps[n]);
      forall st: Step | !HasKey(steps, st.key) && Installed(l, st) ensures Installed(MinusAll(l, steps), st) {
        assert !HasKey(steps[..n], st.key) && st.key != steps[n].key;
      }
    }
  }

  /** Removing a piece from the middle of what was added leaves what the rest adds up to. */
  lemma MinusMiddle(l: Ledger, pre: seq<Step>, mid: seq<Step>, post: seq<Step>)
    requires DistinctKeys(mid) && AllUnused(l, mid) && DisjointKeys(pre, mid) && DisjointKeys(post, mid)
    ensures MinusAll(PlusAll(l, pre + mid + post), mid) == PlusAll(l, pre + post)
  {
    var m := PlusAll(l, pre);
    PlusAllAppend(l, pre + mid, post);
    PlusAllAppend(l, pre, mid);
    PlusAllAppend(l, pre, post);
    PlusAllThenMinusAll(PlusAll(m, mid), post, mid);
    forall i | 0 <= i < |mid| ensures Unused(m, mid[i].key) { UnusedAfter(l, pre, mid[i].key); }
    PlusAllMinusAll(m, mid);
  }

  // ------------------------------------------------------------ the live instances

  /** The hops of all instances, oldest first. */
  function JobSteps(live: seq<Sfci>): seq<Step> {
    if live == [] then [] else JobSteps(live[..|live| - 1]) + StepsOf(live[|live| - 1])
  }

  /** Their VNF records on a server. */
  function JobRecords(live: seq<Sfci>, s: NodeID): seq<VnfiRecord>
    requires AllAligned(live)
  {
    if live == [] then [] else JobRecords(live[..|live| - 1], s) + Records(live[|live| - 1], s, 0)
  }

  predicate AllAligned(live: seq<Sfci>) {
    forall i | 0 <= i < |live| :: Aligned(live[i])
  }

  predicate DistinctJobs(live: seq<Sfci>) {
    forall i, j | 0 <= i < j < |live| :: live[i].sfciID != live[j].sfciID
  }

  /** Nothing in the books belongs to the id. */
  ghost predicate NeverSeen(b: Sib, id: int) {
    && (forall k: Hop | k.sfciID == id :: Unused(b.ledger, k))
    && (forall s :: Foreign(ListAt(b.vnfis, s), id))
    && id !in b.sfcis
  }

  lemma {:induction false} JobKeys(live: seq<Sfci>)
    requires DistinctJobs(live)
    ensures DistinctKeys(JobSteps(live))
    ensures forall i | 0 <= i < |JobSteps(live)| :: exists j :: 0 <= j < |live| && live[j].sfciID == JobSteps(live)[i].key.sfciID
  {
    if live != [] {
      var n := |live| - 1;
      JobKeys(live[..n]);
      DirKeys(live[n], |live[n].paths|);
      var a, b, all := JobSteps(live[..n]), StepsOf(live[n]), JobSteps(live);
      assert all == a + b;
      forall i | 0 <= i < |all|
        ensures exists j :: 0 <= j < |live| && live[j].sfciID == all[i].key.sfciID
      {
        if i < |a| {
          var j :| 0 <= j < |live[..n]| && live[..n][j].sfciID == a[i].key.sfciID;
          assert live[j].sfciID == a[i].key.sfciID;
        } else {
          assert live[n].sfciID == b[i - |a|].key.sfciID;
        }
      }
      forall i, j | 0 <= i < j < |all| ensures all[i].key != all[j].key {
        if i < |a| <= j {
          var k :| 0 <= k < |live[..n]| && live[..n][k].sfciID == a[i].key.sfciID;
          assert live[k].sfciID != live[n].sfciID;
        }
      }
    }
  }

  lemma JobStepsSnoc(a: seq<Sfci>, x: Sfci)
    ensures JobSteps(a + [x]) == JobSteps(a) + StepsOf(x)
  {
    assert (a + [x])[..|a|] == a;
  }

  lemma AppendLast<T>(a: seq<T>, b: seq<T>)
    requires b != []
    ensures a + b == a + b[..|b| - 1] + [b[|b| - 1]]
  {
  }

  lemma {:induction false} JobStepsAppend(a: seq<Sfci>, b: seq<Sfci>)
    ensures JobSteps(a + b) == JobSteps(a) + JobSteps(b)
  {
    if b == [] {
      assert a + b == a;
    } else {
      var c, x := b[..|b| - 1], b[|b| - 1];
      JobStepsAppend(a, c);
      JobStepsSnoc(a + c, x);
      AppendLast(a, b);
      Associative(JobSteps(a), JobSteps(c), StepsOf(x));
    }
  }

  lemma SplitAt<T>(s: seq<T>, i: nat)
    requires i < |s|
    ensures s == s[..i] + [s[i]] + s[i + 1..]
  {
  }

  lemma JobStepsSplit(live: seq<Sfci>, i: nat)
    requires i < |live|
    ensures JobSteps(live) == JobSteps(live[..i]) + StepsOf(live[i]) + JobSteps(live[i + 1..])
  {
    SplitAt(live, i);
    JobStepsSnoc(live[..i], live[i]);
    JobStepsAppend(live[..i] + [live[i]], live[i + 1..]);
  }

  lemma Associative<T>(x: seq<T>, y: seq<T>, z: seq<T>)
    ensures (x + y) + z == x + (y + z)
  {
  }

  lemma JobRecordsLast(a: seq<Sfci>, x: Sfci, s: NodeID)
    requires AllAligned(a) && Aligned(x)
    ensures AllAligned(a + [x]) && JobRecords(a + [x], s) == JobRecords(a, s) + Records(x, s, 0)
  {
    assert (a + [x])[..|a|] == a;
  }

  lemma {:induction false} JobRecordsAppend(a: seq<Sfci>, b: seq<Sfci>, s: NodeID)
    requires AllAligned(a) && AllAligned(b)
    ensures AllAligned(a + b) && JobRecords(a + b, s) == JobRecords(a, s) + JobRecords(b, s)
  {
    if b == [] {
      assert a + b == a;
    } else {
      var n := |b| - 1;
      JobRecordsAppend(a, b[..n], s);
      assert b == b[..n] + [b[n]] && a + b == a + b[..n] + [b[n]];
      JobRecordsLast(a + b[..n], b[n], s);
      JobRecordsLast(b[..n], b[n], s);
      Associative(JobRecords(a, s), JobRecords(b[..n], s), Records(b[n], s, 0));
    }
  }

  lemma {:induction false} RecordsOwn(sfci: Sfci, s: NodeID, m: nat, id: int)
    requires Aligned(sfci) && m <= |sfci.vnfiSequence| && sfci.sfciID != id
    ensures Foreign(Records(sfci, s, m), id)
    decreases |sfci.vnfiSequence| - m
  {
    if m < |sfci.vnfiSequence| { RecordsOwn(sfci, s, m + 1, id); }
  }

  lemma {:induction false} JobRecordsForeign(live: seq<Sfci>, s: NodeID, id: int)
    requires AllAligned(live) && forall i | 0 <= i < |live| :: live[i].sfciID != id
    ensures Foreign(JobRecords(live, s), id)
  {
    if live != [] {
      JobRecordsForeign(live[..|live| - 1], s, id);
      RecordsOwn(live[|live| - 1], s, 0, id);
    }
  }

  lemma Pieces(all: seq<Step>, pre: seq<Step>, mid: seq<Step>, post: seq<Step>)
    requires all == pre + mid + post && DistinctKeys(all)
    ensures DistinctKeys(mid) && DisjointKeys(pre, mid) && DisjointKeys(post, mid)
  {
    forall i, j | 0 <= i < j < |mid| ensures mid[i].key != mid[j].key {
      assert all[|pre| + i] == mid[i] && all[|pre| + j] == mid[j];
    }
    forall i, j | 0 <= i < |pre| && 0 <= j < |mid| ensures pre[i].key != mid[j].key {
      assert all[i] == pre[i] && all[|pre| + j] == mid[j];
    }
    forall i, j | 0 <= i < |post| && 0 <= j < |mid| ensures post[i].key != mid[j].key {
      assert all[|pre| + |mid| + i] == post[i] && all[|pre| + j] == mid[j];
    }
  }

  /** A piece of what was charged is installed. */
  lemma MiddleInstalled(l: Ledger, all: seq<Step>, pre: seq<Step>, mid: seq<Step>, post: seq<Step>)
    requires all == pre + mid + post && AllUnused(l, all) && AllLinked(l, all)
    ensures AllUnused(l, mid)
    ensures forall k | 0 <= k < |mid| :: Installed(PlusAll(l, all), mid[k])
  {
    forall k | 0 <= k < |mid| ensures Installed(PlusAll(l, all), mid[k]) && Unused(l, mid[k].key) {
      assert all[|pre| + k] == mid[k];
      PlusAllInstalls(l, all, |pre| + k);
    }
  }

  lemma RestLinked(l: Ledger, pre: seq<Step>, mid: seq<Step>, post: seq<Step>)
    requires AllLinked(l, pre + mid + post)
    ensures AllLinked(l, pre + post)
  {
    var all, rest := pre + mid + post, pre + post;
    forall k | 0 <= k < |rest| ensures StepLinked(l, rest[k]) {
      assert rest[k] == all[if k < |pre| then k else k + |mid|];
    }
  }

  /** Discharging a piece of what was charged succeeds and leaves the rest. */
  lemma DischargeMiddle(l: Ledger, all: seq<Step>, pre: seq<Step>, mid: seq<Step>, post: seq<Step>)
    requires all == pre + mid + post && Covered(l) && DistinctKeys(all) && AllUnused(l, all) && AllLinked(l, all)
    ensures DischargeAll(PlusAll(l, all), mid) == (PlusAll(l, pre + post), true)
  {
    PlusAllCovered(l, all);
    MiddleInstalled(l, all, pre, mid, post);
    Pieces(all, pre, mid, post);
    DischargeAllInstalled(PlusAll(l, all), mid);
    MinusMiddle(l, pre, mid, post);
  }

  // ------------------------------------------------------------ the invariant of a run

  /** The live instances are new to the initial state, distinct, and well formed. */
  ghost predicate Newcomers(init: Sib, live: seq<Sfci>) {
    && Covered(init.ledger) && DistinctJobs(live) && AllAligned(live)
    && (forall i | 0 <= i < |live| :: NeverSeen(init, live[i].sfciID))
    && AllLinked(init.ledger, JobSteps(live))
  }

  ghost predicate BookedRecords(init: Sib, live: seq<Sfci>, v: Vnfis)
    requires AllAligned(live)
  {
    forall s :: ListAt(v, s) == ListAt(init.vnfis, s) + JobRecords(live, s)
  }

  predicate IsLive(live: seq<Sfci>, id: int) {
    exists i | 0 <= i < |live| :: live[i].sfciID == id
  }

  /** The books are the initial ones plus the live instances, oldest first. */
  ghost predicate Booked(init: Sib, live: seq<Sfci>, b: Sib) {
    && Newcomers(init, live)
    && b.ledger == PlusAll(init.ledger, JobSteps(live))
    && BookedRecords(init, live, b.vnfis)
    && forall id :: id in b.sfcis <==> id in init.sfcis || IsLive(live, id)
  }

  lemma LiveUnused(init: Sib, live: seq<Sfci>)
    requires Newcomers(init, live)
    ensures AllUnused(init.ledger, JobSteps(live)) && DistinctKeys(JobSteps(live))
  {
    JobKeys(live);
    var all := JobSteps(live);
    forall i | 0 <= i < |all| ensures Unused(init.ledger, all[i].key) {
      var j :| 0 <= j < |live| && live[j].sfciID == all[i].key.sfciID;
      assert NeverSeen(init, live[j].sfciID);
    }
  }

  lemma LinkedLater(l: Ledger, xs: seq<Step>, ys: seq<Step>)
    ensures AllLinked(PlusAll(l, xs), ys) <==> AllLinked(l, ys)
  {
    PlusAllShape(l, xs);
    assert forall st: Step :: StepLinked(PlusAll(l, xs), st) <==> StepLinked(l, st);
  }

  /** One more instance whose hops have links. */
  lemma OneMore(init: Sib, live: seq<Sfci>, sfci: Sfci)
    requires Newcomers(init, live) && NeverSeen(init, sfci.sfciID) && !IsLive(live, sfci.sfciID)
    requires Aligned(sfci) && AllLinked(init.ledger, StepsOf(sfci))
    ensures Newcomers(init, live + [sfci])
    ensures PlusAll(init.ledger, JobSteps(live + [sfci])) == PlusAll(PlusAll(init.ledger, JobSteps(live)), StepsOf(sfci))
    ensures forall s :: JobRecords(live + [sfci], s) == JobRecords(live, s) + Records(sfci, s, 0)
  {
    var after := live + [sfci];
    JobStepsSnoc(live, sfci);
    PlusAllAppend(init.ledger, JobSteps(live), StepsOf(sfci));
    assert AllLinked(init.ledger, JobSteps(live) + StepsOf(sfci));
    forall s ensures JobRecords(after, s) == JobRecords(live, s) + Records(sfci, s, 0) {
      JobRecordsSnoc(live, sfci, s);
    }
    assert forall i | 0 <= i < |live| :: !(live[i].sfciID == sfci.sfciID);
  }

  lemma JobRecordsSnoc(live: seq<Sfci>, x: Sfci, s: NodeID)
    requires AllAligned(live) && Aligned(x)
    ensures AllAligned(live + [x]) && JobRecords(live + [x], s) == JobRecords(live, s) + Records(x, s, 0)
  {
    assert (live + [x])[..|live|] == live;
  }

  /** Charging a new instance succeeds exactly when its hops fit. */
  lemma AddLedger(init: Sib, live: seq<Sfci>, l: Ledger, sfc: Sfc, sfci: Sfci)
    requires Newcomers(init, live) && l == PlusAll(init.ledger, JobSteps(live)) && Checked(l, sfc, sfci)
    ensures ChargeAll(l, StepsOf(sfci)).1 <==> Fits(l, StepsOf(sfci))
    ensures ChargeAll(l, StepsOf(sfci)).1 ==> ChargeAll(l, StepsOf(sfci)).0 == PlusAll(l, StepsOf(sfci))
    ensures AllLinked(init.ledger, StepsOf(sfci))
  {
    DirLinked(l, sfc, sfci, |sfci.paths|);
    ChargeAllExactly(l, StepsOf(sfci));
    LinkedLater(init.ledger, JobSteps(live), StepsOf(sfci));
  }

  /** An addition of a new instance is accepted exactly when the checks pass and the hops
      fit, and then the instance is the youngest of the live ones. */
  lemma AddBooks(init: Sib, live: seq<Sfci>, b: Sib, sfc: Sfc, sfci: Sfci)
    requires Booked(init, live, b) && NeverSeen(init, sfci.sfciID) && !IsLive(live, sfci.sfciID)
    ensures AddSfci(b, sfc, sfci).1 <==> Checked(b.ledger, sfc, sfci) && Fits(b.ledger, StepsOf(sfci))
    ensures AddSfci(b, sfc, sfci).1 ==> Booked(init, live + [sfci], AddSfci(b, sfc, sfci).0)
  {
    if Checked(b.ledger, sfc, sfci) {
      CheckedAligned(b.ledger, sfc, sfci);
      AddLedger(init, live, b.ledger, sfc, sfci);
      if Fits(b.ledger, StepsOf(sfci)) {
        var b' := AddSfci(b, sfc, sfci).0;
        OneMore(init, live, sfci);
        assert BookedRecords(init, live + [sfci], b'.vnfis) by {
          forall s ensures ListAt(b'.vnfis, s) == ListAt(init.vnfis, s) + JobRecords(live + [sfci], s) {
            PlaceAppends(b.vnfis, sfci, 0, s);
            Associative(ListAt(init.vnfis, s), JobRecords(live, s), Records(sfci, s, 0));
          }
        }
        LiveAppend(live, sfci);
      }
    }
  }

  lemma LiveAppend(live: seq<Sfci>, sfci: Sfci)
    ensures forall id :: IsLive(live + [sfci], id) <==> IsLive(live, id) || id == sfci.sfciID
  {
    var after := live + [sfci];
    forall id ensures IsLive(after, id) <==> IsLive(live, id) || id == sfci.sfciID {
      if IsLive(live, id) {
        var i :| 0 <= i < |live| && live[i].sfciID == id;
        assert after[i].sfciID == id;
      }
      assert after[|live|].sfciID == sfci.sfciID;
    }
  }

  function Others(live: seq<Sfci>, i: nat): seq<Sfci>
    requires i < |live|
  {
    live[..i] + live[i + 1..]
  }

  lemma LiveOthers(live: seq<Sfci>, i: nat)
    requires i < |live| && DistinctJobs(live)
    ensures DistinctJobs(Others(live, i))
    ensures forall id :: IsLive(Others(live, i), id) <==> IsLive(live, id) && id != live[i].sfciID
  {
    var rest := Others(live, i);
    forall id ensures IsLive(rest, id) <==> IsLive(live, id) && id != live[i].sfciID {
      if IsLive(live, id) && id != live[i].sfciID {
        var j :| 0 <= j < |live| && live[j].sfciID == id;
        assert rest[if j < i then j else j - 1].sfciID == id;
      }
      if IsLive(rest, id) {
        var j :| 0 <= j < |rest| && rest[j].sfciID == id;
        assert live[if j < i then j else j + 1].sfciID == id;
      }
    }
  }

  lemma OthersNewcomers(init: Sib, live: seq<Sfci>, i: nat)
    requires Newcomers(init, live) && i < |live| && AllLinked(init.ledger, JobSteps(Others(live, i)))
    ensures Newcomers(init, Others(live, i))
  {
    LiveOthers(live, i);
    var rest := Others(live, i);
    forall j | 0 <= j < |rest| ensures NeverSeen(init, rest[j].sfciID) && Aligned(rest[j]) {
      assert rest[j] == live[if j < i then j else j + 1];
    }
  }

  lemma RemoveLedger(init: Sib, live: seq<Sfci>, i: nat)
    requires Newcomers(init, live) && i < |live|
    ensures DischargeAll(PlusAll(init.ledger, JobSteps(live)), StepsOf(live[i]))
         == (PlusAll(init.ledger, JobSteps(Others(live, i))), true)
    ensures AllLinked(init.ledger, JobSteps(Others(live, i)))
  {
    LiveUnused(init, live);
    JobStepsSplit(live, i);
    JobStepsAppend(live[..i], live[i + 1..]);
    var pre, mid, post := JobSteps(live[..i]), StepsOf(live[i]), JobSteps(live[i + 1..]);
    DischargeMiddle(init.ledger, JobSteps(live), pre, mid, post);
    RestLinked(init.ledger, pre, mid, post);
  }

  lemma RecordsSplit(live: seq<Sfci>, i: nat, s: NodeID)
    requires AllAligned(live) && i < |live|
    ensures AllAligned(live[..i]) && AllAligned(live[i + 1..])
    ensures JobRecords(live, s) == JobRecords(live[..i], s) + Records(live[i], s, 0) + JobRecords(live[i + 1..], s)
  {
    var head := live[..i + 1];
    assert live == head + live[i + 1..] && head[..i] == live[..i];
    JobRecordsAppend(head, live[i + 1..], s);
  }

  lemma ListSplit(list: seq<VnfiRecord>, a: seq<VnfiRecord>, b: seq<VnfiRecord>, c: seq<VnfiRecord>, d: seq<VnfiRecord>)
    requires list == a + (b + c + d)
    ensures list == (a + b) + c + d
  {
  }

  /** The list of a server: older records, the instance's own, younger ones. */
  lemma RecordsAround(init: Sib, live: seq<Sfci>, v: Vnfis, i: nat, s: NodeID)
    requires Newcomers(init, live) && i < |live| && BookedRecords(init, live, v)
    ensures AllAligned(live[..i]) && AllAligned(live[i + 1..]) && AllAligned(Others(live, i))
    ensures var before, post := ListAt(init.vnfis, s) + JobRecords(live[..i], s), JobRecords(live[i + 1..], s);
      && ListAt(v, s) == before + Records(live[i], s, 0) + post
      && ListAt(init.vnfis, s) + JobRecords(Others(live, i), s) == before + post
      && Foreign(before, live[i].sfciID)
  {
    RecordsSplit(live, i, s);
    JobRecordsAppend(live[..i], live[i + 1..], s);
    assert NeverSeen(init, live[i].sfciID);
    JobRecordsForeign(live[..i], s, live[i].sfciID);
    var a, b, c, d := ListAt(init.vnfis, s), JobRecords(live[..i], s), Records(live[i], s, 0), JobRecords(live[i + 1..], s);
    ListSplit(ListAt(v, s), a, b, c, d);
    Associative(a, b, d);
  }

  /** A table of lists that agrees with `f` wherever `v` has a list, and is empty elsewhere. */
  ghost function Restrict(v: Vnfis, f: NodeID -> seq<VnfiRecord>): (a: Vnfis)
    ensures forall s :: ListAt(a, s) == if s in v then f(s) else []
  {
    map s | s in v :: f(s)
  }

  lemma UnplaceMiddle(v: Vnfis, x: Sfci, f: NodeID -> seq<VnfiRecord>, g: NodeID -> seq<VnfiRecord>)
    requires Aligned(x)
    requires forall s :: ListAt(v, s) == f(s) + Records(x, s, 0) + g(s)
    requires forall s :: Foreign(f(s), x.sfciID)
    ensures UnplaceFrom(v, x, 0).1
    ensures forall s :: ListAt(UnplaceFrom(v, x, 0).0, s) == f(s) + g(s)
  {
    var a, b := Restrict(v, f), Restrict(v, g);
    forall s ensures Holds(v, x, 0, a, b, s) && ListAt(a, s) + ListAt(b, s) == f(s) + g(s) {
      assert ListAt(v, s) == f(s) + Records(x, s, 0) + g(s);
      assert s !in v ==> |f(s)| + |Records(x, s, 0)| + |g(s)| == 0;
    }
    assert HoldsAll(v, x, 0, a, b);
    UnplaceRemoves(v, x, 0, a, b);
  }

  lemma RemoveRecords(init: Sib, live: seq<Sfci>, v: Vnfis, i: nat)
    requires Newcomers(init, live) && i < |live| && BookedRecords(init, live, v) && AllAligned(Others(live, i))
    ensures UnplaceFrom(v, live[i], 0).1 && BookedRecords(init, Others(live, i), UnplaceFrom(v, live[i], 0).0)
  {
    assert AllAligned(live[..i]) && AllAligned(live[i + 1..]);
    var f := s => ListAt(init.vnfis, s) + JobRecords(live[..i], s);
    var g := s => JobRecords(live[i + 1..], s);
    forall s
      ensures ListAt(v, s) == f(s) + Records(live[i], s, 0) + g(s) && Foreign(f(s), live[i].sfciID)
      ensures f(s) + g(s) == ListAt(init.vnfis, s) + JobRecords(Others(live, i), s)
    {
      RecordsAround(init, live, v, i, s);
    }
    UnplaceMiddle(v, live[i], f, g);
  }

  /** A removal of a live instance always succeeds and leaves the books of the others. */
  lemma RemoveBooks(init: Sib, live: seq<Sfci>, b: Sib, i: nat)
    requires Booked(init, live, b) && i < |live|
    ensures RemoveSfci(b, live[i]).1
    ensures Booked(init, Others(live, i), RemoveSfci(b, live[i]).0)
  {
    RemoveLedger(init, live, i);
    OthersNewcomers(init, live, i);
    RemoveRecords(init, live, b.vnfis, i);
    LiveOthers(live, i);
    assert IsLive(live, live[i].sfciID);
    assert NeverSeen(init, live[i].sfciID);
  }
}
