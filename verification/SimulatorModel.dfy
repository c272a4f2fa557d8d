/** The simulator's resource ledger on values: what installing and removing one hop of a
    chain does to switches and links, and how these changes add up and cancel. */
module SimulatorModel {
  type NodeID = int
  type Edge = (NodeID, NodeID)

  /** What a table entry or a link reservation belongs to. */
  datatype Hop = Hop(sfciID: int, dirID: nat, stage: nat, hop: nat)

  /** One hop of a path: from `src` to `dst`. */
  datatype Step = Step(key: Hop, src: NodeID, dst: NodeID)

  datatype SwitchInfo = SwitchInfo(tcamSize: int, tcamUsage: int, nextHop: map<Hop, NodeID>)

  datatype ServerKind = ClassifierServer | NfviServer | OtherServer

  /** What is in use, and what never changes: the kinds of the servers, and for how many
      top-of-rack switches there are paths. */
  datatype Ledger = Ledger(
    switches: map<NodeID, SwitchInfo>, links: map<Edge, set<Hop>>, serverLinks: map<Edge, set<Hop>>,
    servers: map<NodeID, ServerKind>, torPaths: nat)

  // ------------------------------------------------------------ one hop

  type Switches = map<NodeID, SwitchInfo>
  type Users = map<Edge, set<Hop>>

  function AddEntry(m: Switches, st: Step): Switches {
    if st.src in m then
      var s := m[st.src];
      m[st.src := s.(tcamUsage := s.tcamUsage + 1, nextHop := s.nextHop[st.key := st.dst])]
    else m
  }

  function DropEntry(m: Switches, st: Step): Switches {
    if st.src in m then
      var s := m[st.src];
      m[st.src := s.(tcamUsage := s.tcamUsage - 1, nextHop := s.nextHop - {st.key})]
    else m
  }

  function AddUser(m: Users, e: Edge, k: Hop): Users {
    if e in m then m[e := m[e] + {k}] else m
  }

  function DropUser(m: Users, e: Edge, k: Hop): Users {
    if e in m then m[e := m[e] - {k}] else m
  }

  function Crosses(st: Step): Edge {
    (st.src, st.dst)
  }

  /** Reserves the link a hop crosses; a link to a server takes precedence. */
  function Reserve(l: Ledger, st: Step): Ledger {
    if Crosses(st) in l.serverLinks then l.(serverLinks := AddUser(l.serverLinks, Crosses(st), st.key))
    else l.(links := AddUser(l.links, Crosses(st), st.key))
  }

  function Free(l: Ledger, st: Step): Ledger {
    if Crosses(st) in l.serverLinks then l.(serverLinks := DropUser(l.serverLinks, Crosses(st), st.key))
    else l.(links := DropUser(l.links, Crosses(st), st.key))
  }

  function Plus(l: Ledger, st: Step): Ledger {
    Reserve(l.(switches := AddEntry(l.switches, st)), st)
  }

  function Minus(l: Ledger, st: Step): Ledger {
    Free(l.(switches := DropEntry(l.switches, st)), st)
  }

  function PlusAll(l: Ledger, steps: seq<Step>): Ledger {
    if steps == [] then l else Plus(PlusAll(l, steps[..|steps| - 1]), steps[|steps| - 1])
  }

  function MinusAll(l: Ledger, steps: seq<Step>): Ledger {
    if steps == [] then l else Minus(MinusAll(l, steps[..|steps| - 1]), steps[|steps| - 1])
  }

  // ------------------------------------------------------------ freshness

  /** No table and no link mentions the key. */
  predicate Unused(l: Ledger, k: Hop) {
    && (forall s | s in l.switches :: k !in l.switches[s].nextHop)
    && (forall e | e in l.links :: k !in l.links[e])
    && (forall e | e in l.serverLinks :: k !in l.serverLinks[e])
  }

  predicate DistinctKeys(steps: seq<Step>) {
    forall i, j | 0 <= i < j < |steps| :: steps[i].key != steps[j].key
  }

  predicate HasKey(steps: seq<Step>, k: Hop) {
    exists i | 0 <= i < |steps| :: steps[i].key == k
  }

  predicate DisjointKeys(a: seq<Step>, b: seq<Step>) {
    forall i, j | 0 <= i < |a| && 0 <= j < |b| :: a[i].key != b[j].key
  }

  predicate AllUnused(l: Ledger, steps: seq<Step>) {
    forall i | 0 <= i < |steps| :: Unused(l, steps[i].key)
  }

  // ------------------------------------------------------------ cancelling and commuting

  lemma EntryCancels(m: Switches, st: Step)
    requires forall s | s in m :: st.key !in m[s].nextHop
    ensures DropEntry(AddEntry(m, st), st) == m
  {
    if st.src in m {
      assert m[st.src].nextHop[st.key := st.dst] - {st.key} == m[st.src].nextHop;
    }
  }

  lemma UserCancels(m: Users, e: Edge, k: Hop)
    requires forall e | e in m :: k !in m[e]
    ensures DropUser(AddUser(m, e, k), e, k) == m
  {
    if e in m {
      assert m[e] + {k} - {k} == m[e];
    }
  }

  lemma EntriesCommute(m: Switches, x: Step, y: Step)
    requires x.key != y.key
    ensures DropEntry(AddEntry(m, x), y) == AddEntry(DropEntry(m, y), x)
  {
    if x.src in m && x.src == y.src {
      var t := m[x.src].nextHop;
      assert t[x.key := x.dst] - {y.key} == (t - {y.key})[x.key := x.dst];
    }
  }

  lemma UsersCommute(m: Users, e: Edge, k: Hop, f: Edge, i: Hop)
    requires k != i
    ensures DropUser(AddUser(m, e, k), f, i) == AddUser(DropUser(m, f, i), e, k)
  {
    if e in m && e == f {
      assert m[e] + {k} - {i} == m[e] - {i} + {k};
    }
  }

  lemma PlusMinus(l: Ledger, st: Step)
    requires Unused(l, st.key)
    ensures Minus(Plus(l, st), st) == l
  {
    EntryCancels(l.switches, st);
    UserCancels(l.links, Crosses(st), st.key);
    UserCancels(l.serverLinks, Crosses(st), st.key);
  }

  lemma PlusThenMinus(l: Ledger, x: Step, y: Step)
    requires x.key != y.key
    ensures Minus(Plus(l, x), y) == Plus(Minus(l, y), x)
  {
    EntriesCommute(l.switches, x, y);
    UsersCommute(l.links, Crosses(x), x.key, Crosses(y), y.key);
    UsersCommute(l.serverLinks, Crosses(x), x.key, Crosses(y), y.key);
  }

  lemma {:induction false} PlusThenMinusAll(l: Ledger, x: Step, ys: seq<Step>)
    requires !HasKey(ys, x.key)
    ensures MinusAll(Plus(l, x), ys) == Plus(MinusAll(l, ys), x)
  {
    if ys != [] {
      var n := |ys| - 1;
      PlusThenMinusAll(l, x, ys[..n]);
      PlusThenMinus(MinusAll(l, ys[..n]), x, ys[n]);
    }
  }

  /** Adding some hops and removing others can be done in either order. */
  lemma {:induction false} PlusAllThenMinusAll(l: Ledger, xs: seq<Step>, ys: seq<Step>)
    requires DisjointKeys(xs, ys)
    ensures MinusAll(PlusAll(l, xs), ys) == PlusAll(MinusAll(l, ys), xs)
  {
    if xs != [] {
      var n := |xs| - 1;
      PlusAllThenMinusAll(l, xs[..n], ys);
      PlusThenMinusAll(PlusAll(l, xs[..n]), xs[n], ys);
    }
  }

  /** Removing what was added restores the ledger exactly. */
  lemma {:induction false} PlusAllMinusAll(l: Ledger, xs: seq<Step>)
    requires DistinctKeys(xs) && AllUnused(l, xs)
    ensures MinusAll(PlusAll(l, xs), xs) == l
  {
    if xs != [] {
      var n := |xs| - 1;
      PlusThenMinusAll(PlusAll(l, xs[..n]), xs[n], xs[..n]);
      PlusAllMinusAll(l, xs[..n]);
      PlusMinus(l, xs[n]);
    }
  }

  lemma {:induction false} PlusAllAppend(l: Ledger, xs: seq<Step>, ys: seq<Step>)
    ensures PlusAll(l, xs + ys) == PlusAll(PlusAll(l, xs), ys)
  {
    if ys == [] {
      assert xs + ys == xs;
    } else {
      var n := |ys| - 1;
      PlusAllAppend(l, xs, ys[..n]);
      assert (xs + ys)[..|xs + ys| - 1] == xs + ys[..n];
    }
  }
}
