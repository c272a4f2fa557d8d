/** In which order the children of a command are told. */
module MediatorTurns {
  import opened Tries
  import opened MediatorModel
  import opened MediatorInvariant
  import opened MediatorSteps
  import opened MediatorRuns
  import opened MediatorTheorems
  import opened MediatorMessages

  /** Whose turn it is: first classifiers, then forwarders, then switches, then functions. */
  function Turn(n: CmdName): nat {
    match n
    case ClassifierCmd => 0
    case SimulatorCmd => 0
    case SffCmd => 1
    case P4Cmd => 2
    case NetworkCmd => 2
    case VnfCmd => 3
  }

  /** The action sends a child of `p`. */
  ghost predicate Sends(s: Sys, a: Action, p: CmdID) {
    a.Forwarded? && a.child in s.place && s.place[a.child].parent == p
  }

  /** If both actions send children of one command, the first one's turn is earlier. */
  ghost predicate Earlier(s: Sys, a: Action, b: Action) {
    forall p | Sends(s, a, p) && Sends(s, b, p) :: Turn(a.name) < Turn(b.name)
  }

  ghost predicate InTurn(s: Sys) {
    forall i, j {:trigger Earlier(s, s.hist.log[i], s.hist.log[j])} | 0 <= i < j < |s.hist.log| ::
      Earlier(s, s.hist.log[i], s.hist.log[j])
  }

  /** Of the children of `p` only these have been sent. */
  ghost predicate OnlySent(s: Sys, p: CmdID, names: seq<CmdName>) {
    forall a | a in s.hist.log && Sends(s, a, p) :: a.name in names
  }

  /** A step that adds children but sends none. */
  lemma NothingNew(s: Sys, t: Sys)
    requires Right(s) && InTurn(s) && t.hist.log == s.hist.log
    requires forall c | c in s.place :: c in t.place && t.place[c] == s.place[c]
    ensures InTurn(t) && forall a, p | a in s.hist.log :: Sends(t, a, p) <==> Sends(s, a, p)
  {
    forall a, p | a in s.hist.log ensures Sends(t, a, p) <==> Sends(s, a, p) {
      assert EntryRight(s, a);
    }
    forall i, j | 0 <= i < j < |t.hist.log| ensures Earlier(t, t.hist.log[i], t.hist.log[j]) {
      assert t.hist.log[i] in s.hist.log && t.hist.log[j] in s.hist.log;
      assert Earlier(s, s.hist.log[i], s.hist.log[j]);
    }
  }

  /** A step that adds one action. */
  lemma OneMoreAction(s: Sys, t: Sys, a: Action)
    requires InTurn(s) && t.hist.log == s.hist.log + [a] && t.place == s.place
    requires forall b | b in s.hist.log :: Earlier(s, b, a)
    ensures InTurn(t)
  {
    assert forall x, p :: Sends(t, x, p) <==> Sends(s, x, p);
    forall i, j | 0 <= i < j < |t.hist.log| ensures Earlier(t, t.hist.log[i], t.hist.log[j]) {
      assert t.hist.log[i] == s.hist.log[i] && t.hist.log[i] in s.hist.log;
      assert Earlier(s, t.hist.log[i], t.hist.log[j]);
    }
  }

  lemma SendInTurn(s: Sys, t: Sys, p: CmdID, names: seq<CmdName>, n: CmdName, c: CmdID, all: seq<CmdName>)
    requires Right(s) && InTurn(s) && p in s.store && p in s.family && !Known(s, c) && OnlySent(s, p, names)
    requires forall m | m in names :: Turn(m) < Turn(n)
    requires t == Forward(Prepare(s, p, n, c), p, n, c) && all == names + [n]
    ensures InTurn(t) && OnlySent(t, p, all)
  {
    var s1 := Prepare(s, p, n, c);
    var a := Forwarded(n, c, s1.store[c].cmd);
    NothingNew(s, s1);
    assert t.hist.log == s1.hist.log + [a];
    forall b | b in s1.hist.log ensures Earlier(s1, b, a) {
      assert Sends(s1, b, p) ==> Sends(s, b, p);
    }
    OneMoreAction(s1, t, a);
    forall b | b in t.hist.log && Sends(t, b, p) ensures b.name in all {
      if b in s.hist.log { assert Sends(s1, b, p) && Sends(s, b, p); }
    }
  }

  predicate Increasing(names: seq<CmdName>) {
    forall i, j | 0 <= i < j < |names| :: Turn(names[i]) < Turn(names[j])
  }

  /** The children can be sent in this order, under these ids. */
  ghost predicate CanSend(s: Sys, p: CmdID, names: seq<CmdName>, uuids: seq<CmdID>) {
    && Right(s) && p in s.store && p in s.family && p in s.accepted
    && |names| <= |uuids| && NoDuplicates(uuids) && Increasing(names)
    && forall i | 0 <= i < |names| :: !Known(s, uuids[i]) && !HasToWait(s.accepted[p], names[i])
  }

  lemma CanSendPart(s: Sys, p: CmdID, names: seq<CmdName>, uuids: seq<CmdID>)
    requires CanSend(s, p, names, uuids) && names != []
    ensures CanSend(s, p, names[..|names| - 1], uuids)
    ensures forall m | m in names[..|names| - 1] :: Turn(m) < Turn(names[|names| - 1])
  {
  }

  /** Before the last child is sent its id is still fresh. */
  lemma LastSent(s: Sys, p: CmdID, names: seq<CmdName>, uuids: seq<CmdID>, before: Sys, after: Sys)
    requires CanSend(s, p, names, uuids) && names != []
    requires before == ForwardAll(s, p, names[..|names| - 1], uuids) && after == ForwardAll(s, p, names, uuids)
    ensures Right(before) && !Known(before, uuids[|names| - 1]) && p in before.store && p in before.family
    ensures var n, c := names[|names| - 1], uuids[|names| - 1]; after == Forward(Prepare(before, p, n, c), p, n, c)
  {
    ForwardAllLast(s, p, names, uuids);
    LastIsFresh(s, p, names, uuids);
  }

  lemma LastIsFresh(s: Sys, p: CmdID, names: seq<CmdName>, uuids: seq<CmdID>)
    requires CanSend(s, p, names, uuids) && names != []
    ensures var n := |names| - 1; var before := ForwardAll(s, p, names[..n], uuids); Right(before) && !Known(before, uuids[n])
  {
    var n := |names| - 1;
    CanSendPart(s, p, names, uuids);
    ForwardAllRight(s, p, names[..n], uuids);
    if Known(ForwardAll(s, p, names[..n], uuids), uuids[n]) {
      ForwardAllKnown(s, p, names[..n], uuids, uuids[n]);
    }
  }

  lemma LastInTurn(before: Sys, after: Sys, p: CmdID, names: seq<CmdName>, n: nat, c: CmdID)
    requires Right(before) && InTurn(before) && p in before.store && p in before.family && !Known(before, c)
    requires |names| == n + 1 && OnlySent(before, p, names[..n])
    requires forall m | m in names[..n] :: Turn(m) < Turn(names[n])
    requires after == Forward(Prepare(before, p, names[n], c), p, names[n], c)
    ensures InTurn(after) && OnlySent(after, p, names)
  {
    assert names == names[..n] + [names[n]];
    SendInTurn(before, after, p, names[..n], names[n], c, names);
  }

  lemma {:induction false} ForwardAllInTurn(s: Sys, p: CmdID, names: seq<CmdName>, uuids: seq<CmdID>) returns (t: Sys)
    requires CanSend(s, p, names, uuids) && InTurn(s) && OnlySent(s, p, [])
    ensures t == ForwardAll(s, p, names, uuids) && InTurn(t) && OnlySent(t, p, names)
  {
    if names == [] {
      t := s;
    } else {
      var n := |names| - 1;
      CanSendPart(s, p, names, uuids);
      var before := ForwardAllInTurn(s, p, names[..n], uuids);
      t := ForwardAll(s, p, names, uuids);
      LastSent(s, p, names, uuids, before, t);
      LastInTurn(before, t, p, names, n, uuids[n]);
    }
  }

  lemma ImmediateInTurn(server: bool, zone: Zone, t: CmdType)
    ensures Increasing(Immediate(server, zone, t))
  {
  }

  lemma NobodySent(s: Sys, p: CmdID)
    requires Right(s) && p !in s.family
    ensures OnlySent(s, p, [])
  {
    forall c | c in s.place ensures s.place[c].parent in s.family { assert ChildTold(s, c); }
  }

  lemma ReadyToSend(s: Sys, cmd: Command, uuids: seq<CmdID>)
    requires Right(s) && InTurn(s) && FreshIds(s, cmd.cmdID, uuids)
    ensures var s1, names := Start(s, cmd), Immediate(s.server, cmd.zone, cmd.cmdType);
      && CanSend(s1, cmd.cmdID, names, uuids) && InTurn(s1) && OnlySent(s1, cmd.cmdID, [])
      && (Deferred(cmd.zone, cmd.cmdType) ==> |names| < |uuids|)
      && forall i | 0 <= i < |uuids| :: !Known(s1, uuids[i])
  {
    ImmediateShape(s.server, cmd.zone, cmd.cmdType);
    ImmediateInTurn(s.server, cmd.zone, cmd.cmdType);
    NobodySent(s, cmd.cmdID);
    StartRight(s, cmd);
    NothingNew(s, Start(s, cmd));
  }

  lemma CommandInTurn(s: Sys, cmd: Command, uuids: seq<CmdID>)
    requires Right(s) && InTurn(s) && FreshIds(s, cmd.cmdID, uuids)
    ensures InTurn(HandleCommand(s, cmd, uuids))
  {
    var p := cmd.cmdID;
    var names := Immediate(s.server, cmd.zone, cmd.cmdType);
    var s1 := Start(s, cmd);
    ReadyToSend(s, cmd, uuids);
    var sent := ForwardAllInTurn(s1, p, names, uuids);
    ForwardAllRight(s1, p, names, uuids);
    if Deferred(cmd.zone, cmd.cmdType) {
      HeldBack(s1, p, names, uuids);
    }
  }

  /** Preparing the child that is held back sends nobody. */
  lemma HeldBack(s: Sys, p: CmdID, names: seq<CmdName>, uuids: seq<CmdID>)
    requires p in s.store && p in s.family && |names| < |uuids| && NoDuplicates(uuids)
    requires Right(ForwardAll(s, p, names, uuids)) && InTurn(ForwardAll(s, p, names, uuids))
    requires forall i | 0 <= i < |uuids| :: !Known(s, uuids[i])
    ensures InTurn(Prepare(ForwardAll(s, p, names, uuids), p, VnfCmd, uuids[|names|]))
  {
    var t, c := ForwardAll(s, p, names, uuids), uuids[|names|];
    if Known(t, c) { ForwardAllKnown(s, p, names, uuids, c); }
    NothingNew(t, Prepare(t, p, VnfCmd, c));
  }

  lemma WaitingNotSent(s: Sys, p: CmdID)
    requires Inv(s) && p in s.family && VnfCmd in s.family[p] && s.family[p][VnfCmd] in s.store
    requires s.store[s.family[p][VnfCmd]].state == Waiting
    ensures s.family[p][VnfCmd] !in s.hist.sent
  {
    var c := s.family[p][VnfCmd];
    assert ParentLinked(s, p);
    assert ChildLinked(s, c);
    var v := ViewOf(s, p);
    ViewOfIsView(s, p);
    assert FamilyOk(NamesOf(s.server, s.accepted[p]), v);
    assert Sees(s, v, VnfCmd, c) && v.stored;
  }

  /** While the VNF child waits, none has been sent. */
  lemma WaitingIsUnsent(s: Sys, p: CmdID)
    requires Inv(s) && Right(s) && p in s.family && VnfCmd in s.family[p] && s.family[p][VnfCmd] in s.store
    requires s.store[s.family[p][VnfCmd]].state == Waiting
    ensures forall a | a in s.hist.log && Sends(s, a, p) :: Turn(a.name) < 3
  {
    WaitingNotSent(s, p);
    forall a | a in s.hist.log && Sends(s, a, p) ensures a.name != VnfCmd {
      assert EntryRight(s, a);
      assert ChildLinked(s, a.child);
    }
  }

  lemma ReactInTurn(s: Sys, p: CmdID, c: CmdID)
    requires InTurn(s) && FamilyStored(s.store, p) && c in s.store && VnfIsLast(s, p)
    ensures InTurn(React(s, p, c))
  {
    var t := React(s, p, c);
    if AllSuccessful(s.store, p) {
      OneMoreAction(s, t, Replied(p, Successful, s.store[p].cmd.source));
    } else if ChildrenIn(s.store, p, Fail) != {} {
      if t != s { OneMoreAction(s, t, Replied(p, Fail, s.store[p].cmd.source)); }
    } else if t != s {
      ReleaseInTurn(s, p);
    }
  }

  lemma ReleaseInTurn(s: Sys, p: CmdID)
    requires InTurn(s) && FamilyStored(s.store, p) && Release(s, p) != s
    requires var kids := s.store[p].childCmdID; VnfCmd in kids && kids[VnfCmd] in s.place && s.place[kids[VnfCmd]].parent == p
    requires forall a | a in s.hist.log && Sends(s, a, p) :: Turn(a.name) < 3
    ensures InTurn(Release(s, p))
  {
    var c := s.store[p].childCmdID[VnfCmd];
    var a := Forwarded(VnfCmd, c, s.store[c].cmd.(source := "unknown"));
    assert Release(s, p).hist.log == s.hist.log + [a];
    OneMoreAction(s, Release(s, p), a);
  }

  /** Reacting to a reply, the VNF child is sent only as the last. */
  ghost predicate VnfIsLast(s: Sys, p: CmdID)
    requires FamilyStored(s.store, p)
  {
    var kids := s.store[p].childCmdID;
    VnfCmd in kids && s.store[kids[VnfCmd]].state == Waiting ==>
      && kids[VnfCmd] in s.place && s.place[kids[VnfCmd]].parent == p
      && forall a | a in s.hist.log && Sends(s, a, p) :: Turn(a.name) < 3
  }

  lemma RecordInTurn(s: Sys, r: CmdReply, p: CmdID)
    requires Inv(s) && Right(s) && InTurn(s) && r.cmdID in s.store && p in s.family
    requires FamilyStored(s.store, p) && r.cmdID != p && Determined(r.cmdState)
    ensures var s1 := Record(s, r); InTurn(s1) && FamilyStored(s1.store, p) && VnfIsLast(s1, p)
  {
    var s1 := Record(s, r);
    assert ParentLinked(s, p);
    OneMoreAction(s, s1, Answered(r.cmdID, r.cmdState));
    var kids := s1.store[p].childCmdID;
    if VnfCmd in kids && s1.store[kids[VnfCmd]].state == Waiting {
      WaitingIsUnsent(s, p);
    }
  }

  lemma HeardInTurn(s: Sys, r: CmdReply)
    requires Inv(s) && Right(s) && InTurn(s) && LegalReply(s, r)
    ensures ReplyReady(s, r) && InTurn(HandleReply(s, r))
  {
    LegalReplyReady(s, r);
    if r.cmdID in s.store && s.store[r.cmdID].cmdReply.None? {
      var p := s.store[r.cmdID].parentCmdID.value;
      RecordInTurn(s, r, p);
      var s1 := Record(s, r);
      ReactInTurn(s1, p, r.cmdID);
      LiveFamilyAgain(s1, React(s1, p, r.cmdID), p);
      CleanUpInTurn(React(s1, p, r.cmdID), p);
    }
  }

  lemma CleanUpInTurn(s: Sys, p: CmdID)
    requires InTurn(s) && FamilyStored(s.store, p)
    ensures InTurn(CleanUp(s, p))
  {
    var t := CleanUp(s, p);
    assert forall a, q :: Sends(t, a, q) <==> Sends(s, a, q);
    forall i, j | 0 <= i < j < |t.hist.log| ensures Earlier(t, t.hist.log[i], t.hist.log[j]) {
      assert Earlier(s, s.hist.log[i], s.hist.log[j]);
    }
  }

  lemma {:induction false} RunInTurn(s: Sys, es: seq<Event>)
    requires Inv(s) && Right(s) && InTurn(s) && LegalRun(s, es)
    ensures InTurn(Run(s, es))
    decreases es
  {
    if es != [] {
      NextKeepsInv(s, es[0]);
      match es[0] {
        case Cmd(cmd, uuids) =>
          CommandRight(s, cmd, uuids);
          CommandInTurn(s, cmd, uuids);
        case Rply(r) =>
          HeardRight(s, r);
          HeardInTurn(s, r);
      }
      RunInTurn(Next(s, es[0]), es[1..]);
    }
  }

  lemma ReachableInTurn(s: Sys)
    requires Reachable(s)
    ensures InTurn(s)
  {
    var server, es :| LegalRun(Initial(server), es) && s == Run(Initial(server), es);
    NewIsInTurn(server);
    RunInTurn(Initial(server), es);
  }

  lemma NewIsInTurn(server: bool)
    ensures Inv(Initial(server)) && Right(Initial(server)) && InTurn(Initial(server))
  {
  }

  /** In every run the children of a command are told in this order: classifiers, forwarders,
      switches, functions; none is told twice. */
  lemma ToldInTurn(s: Sys, i: nat, j: nat)
    requires Reachable(s) && i < j < |s.hist.log| && s.hist.log[i].Forwarded? && s.hist.log[j].Forwarded?
    requires s.hist.log[i].child in s.place && s.hist.log[j].child in s.place
    requires s.place[s.hist.log[i].child].parent == s.place[s.hist.log[j].child].parent
    ensures Turn(s.hist.log[i].name) < Turn(s.hist.log[j].name)
  {
    ReachableInTurn(s);
    assert Earlier(s, s.hist.log[i], s.hist.log[j]);
    assert Sends(s, s.hist.log[i], s.place[s.hist.log[i].child].parent);
  }
}
