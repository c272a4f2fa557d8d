/** What the mediator says to whom: every child gets a copy of its parent's command, and every
    reply goes to whoever sent the command. */
module MediatorMessages {
  import opened Tries
  import opened MediatorModel
  import opened MediatorInvariant
  import opened MediatorSteps
  import opened MediatorRuns
  import opened MediatorTheorems

  // ------------------------------------------------------------ what a child should be told

  /** The VNF child of a new instance has to wait for the forwarders. */
  predicate HasToWait(cmd: Command, n: CmdName) {
    n == VnfCmd && cmd.cmdType == AddSfci && (cmd.zone == TurbonetZone || cmd.zone == PufferZone)
  }

  /** The parent's command under the child's own id.  A child that had to wait no longer says
      who asked, once it is sent. */
  predicate IsCopy(cmd: Command, n: CmdName, c: CmdID, sent: bool, copy: Command) {
    && copy.cmdID == c && copy.cmdType == cmd.cmdType && copy.zone == cmd.zone
    && copy.source == if sent && HasToWait(cmd, n) then "unknown" else cmd.source
  }

  // ------------------------------------------------------------ what every step keeps

  ghost predicate ParentTold(s: Sys, p: CmdID)
    requires p in s.family
  {
    && p in s.accepted && s.accepted[p].cmdID == p && p !in s.place
    && (p in s.store ==>
          && s.store[p].cmd == s.accepted[p]
          && forall n | n in s.store[p].childCmdID ::
               s.store[p].childCmdID[n] in s.place && s.place[s.store[p].childCmdID[n]] == Place(p, n))
  }

  ghost predicate ChildTold(s: Sys, c: CmdID)
    requires c in s.place
  {
    var Place(p, n) := s.place[c];
    p in s.family && p in s.accepted && (c in s.store ==> IsCopy(s.accepted[p], n, c, c in s.hist.sent, s.store[c].cmd))
  }

  ghost predicate EntryRight(s: Sys, a: Action) {
    match a
    case Forwarded(n, c, message) =>
      c in s.place && s.place[c].name == n && s.place[c].parent in s.accepted && c in s.hist.sent
      && IsCopy(s.accepted[s.place[c].parent], n, c, true, message)
    case Replied(p, _, to) => p in s.accepted && to == s.accepted[p].source
    case Answered(_, _) => true
  }

  /** All is well, but for the command stored for `but`. */
  ghost predicate RightBut(s: Sys, but: Option<CmdID>) {
    && (forall p {:trigger ParentTold(s, p)} | p in s.family :: ParentTold(s, p))
    && (forall c {:trigger ChildTold(s, c)} | c in s.place && but != Some(c) :: ChildTold(s, c))
    && (forall a {:trigger EntryRight(s, a)} | a in s.hist.log :: EntryRight(s, a))
    && s.hist.sent.Keys <= s.place.Keys && s.accepted.Keys == s.family.Keys
  }

  ghost predicate Right(s: Sys) {
    RightBut(s, None)
  }

  lemma StartRight(s: Sys, cmd: Command)
    requires Right(s) && !Known(s, cmd.cmdID)
    ensures Right(Start(s, cmd))
  {
    var t := Start(s, cmd);
    forall p | p in t.family ensures ParentTold(t, p) {
      if p != cmd.cmdID { assert ParentTold(s, p); }
    }
    forall c | c in t.place ensures ChildTold(t, c) { assert ChildTold(s, c); }
    forall a | a in t.hist.log ensures EntryRight(t, a) { assert EntryRight(s, a); }
  }

  lemma PrepareRight(s: Sys, p: CmdID, n: CmdName, c: CmdID)
    requires Right(s) && p in s.store && p in s.family && !Known(s, c)
    ensures var t := Prepare(s, p, n, c);
      Right(t) && t.place[c] == Place(p, n) && p in t.accepted && IsCopy(t.accepted[p], n, c, false, t.store[c].cmd)
  {
    var t := Prepare(s, p, n, c);
    assert ParentTold(s, p);
    forall q | q in t.family ensures ParentTold(t, q) { assert ParentTold(s, q); }
    forall d | d in t.place ensures ChildTold(t, d) {
      if d != c { assert ChildTold(s, d); }
    }
    forall a | a in t.hist.log ensures EntryRight(t, a) { assert EntryRight(s, a); }
  }

  /** Sending a child whose message is right. */
  lemma ForwardRight(s: Sys, p: CmdID, n: CmdName, c: CmdID)
    requires RightBut(s, Some(c)) && p in s.store && c in s.store && c in s.place && s.place[c] == Place(p, n)
    requires p in s.family && p in s.accepted && IsCopy(s.accepted[p], n, c, true, s.store[c].cmd)
    ensures Right(Forward(s, p, n, c))
  {
    var t := Forward(s, p, n, c);
    var sent := Forwarded(n, c, s.store[c].cmd);
    forall q | q in t.family ensures ParentTold(t, q) { assert ParentTold(s, q); }
    forall d | d in t.place ensures ChildTold(t, d) {
      if d != c { assert ChildTold(s, d); }
    }
    forall a | a in t.hist.log ensures EntryRight(t, a) {
      assert a in s.hist.log || a == sent;
      if a in s.hist.log { assert EntryRight(s, a); }
    }
  }

  lemma ReplyToRight(s: Sys, p: CmdID, st: CmdState)
    requires Right(s) && p in s.store && p in s.family
    ensures Right(ReplyTo(s, p, st))
  {
    var t := ReplyTo(s, p, st);
    assert ParentTold(s, p);
    forall q | q in t.family ensures ParentTold(t, q) { assert ParentTold(s, q); }
    forall d | d in t.place ensures ChildTold(t, d) { assert ChildTold(s, d); }
    forall a | a in t.hist.log ensures EntryRight(t, a) {
      assert a in s.hist.log || a == Replied(p, st, s.store[p].cmd.source);
      if a in s.hist.log { assert EntryRight(s, a); }
    }
  }

  lemma RecordRight(s: Sys, r: CmdReply)
    requires Right(s) && r.cmdID in s.store
    ensures Right(Record(s, r))
  {
    var t := Record(s, r);
    forall q | q in t.family ensures ParentTold(t, q) { assert ParentTold(s, q); }
    forall d | d in t.place ensures ChildTold(t, d) { assert ChildTold(s, d); }
    forall a | a in t.hist.log ensures EntryRight(t, a) {
      if a in s.hist.log { assert EntryRight(s, a); }
    }
  }

  lemma CleanUpRight(s: Sys, p: CmdID)
    requires Right(s) && FamilyStored(s.store, p)
    ensures Right(CleanUp(s, p))
  {
    var t := CleanUp(s, p);
    forall q | q in t.family ensures ParentTold(t, q) { assert ParentTold(s, q); }
    forall d | d in t.place ensures ChildTold(t, d) { assert ChildTold(s, d); }
    forall a | a in t.hist.log ensures EntryRight(t, a) { assert EntryRight(s, a); }
  }

  // ------------------------------------------------------------ whole steps

  lemma SendRight(s: Sys, p: CmdID, n: CmdName, c: CmdID)
    requires Right(s) && p in s.store && p in s.family && !Known(s, c)
    requires p in s.accepted && !HasToWait(s.accepted[p], n)
    ensures Right(Forward(Prepare(s, p, n, c), p, n, c))
  {
    PrepareRight(s, p, n, c);
    ForwardRight(Prepare(s, p, n, c), p, n, c);
  }

  lemma {:induction false} ForwardAllRight(s: Sys, p: CmdID, names: seq<CmdName>, uuids: seq<CmdID>)
    requires Right(s) && p in s.store && p in s.family && |names| <= |uuids| && p in s.accepted
    requires forall i | 0 <= i < |names| :: !Known(s, uuids[i]) && !HasToWait(s.accepted[p], names[i])
    requires NoDuplicates(uuids)
    ensures Right(ForwardAll(s, p, names, uuids))
  {
    if names != [] {
      var n := |names| - 1;
      var s1 := ForwardAll(s, p, names[..n], uuids);
      ForwardAllRight(s, p, names[..n], uuids);
      if Known(s1, uuids[n]) { ForwardAllKnown(s, p, names[..n], uuids, uuids[n]); }
      SendRight(s1, p, names[n], uuids[n]);
      ForwardAllLast(s, p, names, uuids);
    }
  }

  lemma CommandRight(s: Sys, cmd: Command, uuids: seq<CmdID>)
    requires Right(s) && FreshIds(s, cmd.cmdID, uuids)
    ensures Right(HandleCommand(s, cmd, uuids))
  {
    var p := cmd.cmdID;
    var names := Immediate(s.server, cmd.zone, cmd.cmdType);
    var s1 := Start(s, cmd);
    ImmediateShape(s.server, cmd.zone, cmd.cmdType);
    StartRight(s, cmd);
    ForwardAllRight(s1, p, names, uuids);
    if Deferred(cmd.zone, cmd.cmdType) {
      var s2, c := ForwardAll(s1, p, names, uuids), uuids[|names|];
      if Known(s2, c) { ForwardAllKnown(s1, p, names, uuids, c); }
      PrepareRight(s2, p, VnfCmd, c);
    }
  }

  lemma ReleaseRight(s: Sys, p: CmdID)
    requires Right(s) && FamilyStored(s.store, p) && p in s.family
    requires VnfCmd in s.store[p].childCmdID && s.store[p].cmd.cmdType == AddSfci ==> HasToWait(s.store[p].cmd, VnfCmd)
    ensures Right(Release(s, p))
  {
    assert ParentTold(s, p);
    if Release(s, p) != s {
      var c := s.store[p].childCmdID[VnfCmd];
      var s1 := s.(store := s.store[c := s.store[c].(cmd := s.store[c].cmd.(source := "unknown"))]);
      assert ChildTold(s, c);
      forall q | q in s1.family ensures ParentTold(s1, q) { assert ParentTold(s, q); }
      forall d | d in s1.place && d != c ensures ChildTold(s1, d) { assert ChildTold(s, d); }
      forall a | a in s1.hist.log ensures EntryRight(s1, a) { assert EntryRight(s, a); }
      ForwardRight(s1, p, VnfCmd, c);
    }
  }

  lemma ReactRight(s: Sys, p: CmdID, c: CmdID)
    requires Right(s) && FamilyStored(s.store, p) && p in s.family && c in s.store
    requires VnfCmd in s.store[p].childCmdID && s.store[p].cmd.cmdType == AddSfci ==> HasToWait(s.store[p].cmd, VnfCmd)
    ensures Right(React(s, p, c))
  {
    if AllSuccessful(s.store, p) {
      ReplyToRight(s, p, Successful);
    } else if ChildrenIn(s.store, p, Fail) != {} {
      ReplyToRight(s, p, Fail);
    } else if ChildrenIn(s.store, p, Waiting) != {} {
      ReleaseRight(s, p);
    }
  }

  /** Only a new instance in a zone with forwarders has a VNF child that is not sent at once. */
  lemma OnlyAdditionsWait(s: Sys, p: CmdID)
    requires Inv(s) && p in s.family && p in s.store
    ensures VnfCmd in s.store[p].childCmdID && s.store[p].cmd.cmdType == AddSfci ==> HasToWait(s.store[p].cmd, VnfCmd)
  {
    assert ParentLinked(s, p);
    ViewOfIsView(s, p);
    assert FamilyOk(NamesOf(s.server, s.accepted[p]), ViewOf(s, p));
  }

  lemma HeardRight(s: Sys, r: CmdReply)
    requires Inv(s) && Right(s) && LegalReply(s, r)
    ensures ReplyReady(s, r) && Right(HandleReply(s, r))
  {
    LegalReplyReady(s, r);
    if r.cmdID in s.store && s.store[r.cmdID].cmdReply.None? {
      var p := s.store[r.cmdID].parentCmdID.value;
      assert ParentLinked(s, p);
      OnlyAdditionsWait(s, p);
      RecordRight(s, r);
      var s1 := Record(s, r);
      ReactRight(s1, p, r.cmdID);
      LiveFamilyAgain(s1, React(s1, p, r.cmdID), p);
      CleanUpRight(React(s1, p, r.cmdID), p);
    }
  }

  lemma {:induction false} RunRight(s: Sys, es: seq<Event>)
    requires Inv(s) && Right(s) && LegalRun(s, es)
    ensures Right(Run(s, es))
    decreases es
  {
    if es != [] {
      NextKeepsInv(s, es[0]);
      match es[0] {
        case Cmd(cmd, uuids) => CommandRight(s, cmd, uuids);
        case Rply(r) => HeardRight(s, r);
      }
      RunRight(Next(s, es[0]), es[1..]);
    }
  }

  lemma ReachableRight(s: Sys)
    requires Reachable(s)
    ensures Right(s)
  {
    var server, es :| LegalRun(Initial(server), es) && s == Run(Initial(server), es);
    assert Right(Initial(server));
    RunRight(Initial(server), es);
  }

  // ------------------------------------------------------------ what is said

  /** Every message ever sent is a copy of the command of the child's parent, under the
      child's own id; it says who asked, unless it is for a VNF child that had to wait. */
  lemma EveryMessage(s: Sys, i: nat)
    requires Reachable(s) && i < |s.hist.log| && s.hist.log[i].Forwarded?
    ensures var Forwarded(n, c, message) := s.hist.log[i];
      && c in s.place && s.place[c].name == n && s.place[c].parent in s.accepted
      && var cmd := s.accepted[s.place[c].parent];
      && cmd.cmdID == s.place[c].parent
      && message.cmdID == c && message.cmdType == cmd.cmdType && message.zone == cmd.zone
      && message.source == if HasToWait(cmd, n) then "unknown" else cmd.source
  {
    ReachableRight(s);
    ReachableInv(s);
    assert EntryRight(s, s.hist.log[i]);
    var c := s.hist.log[i].child;
    assert ChildTold(s, c);
    assert ParentTold(s, s.place[c].parent);
  }

  /** So is every stored child, and it says who asked until it is sent after having waited. */
  lemma EveryStoredChild(s: Sys, c: CmdID)
    requires Reachable(s) && c in s.place && c in s.store
    ensures var Place(p, n) := s.place[c];
      && p in s.accepted
      && var cmd, copy := s.accepted[p], s.store[c].cmd;
      && copy.cmdID == c && copy.cmdType == cmd.cmdType && copy.zone == cmd.zone
      && copy.source == if HasToWait(cmd, n) && c in s.hist.sent then "unknown" else cmd.source
  {
    ReachableRight(s);
    assert ChildTold(s, c);
  }

  /** Every reply to a command goes to whoever sent it. */
  lemma EveryReply(s: Sys, i: nat)
    requires Reachable(s) && i < |s.hist.log| && s.hist.log[i].Replied?
    ensures var Replied(p, _, to) := s.hist.log[i]; p in s.accepted && to == s.accepted[p].source
  {
    ReachableRight(s);
    assert EntryRight(s, s.hist.log[i]);
  }

  /** A command about an instance, not about a chain. */
  predicate OfInstance(t: CmdType) {
    t == AddSfci || t == DelSfci
  }

  lemma NamesToTell(server: bool, cmd: Command)
    ensures var told := NamesOf(server, cmd);
      var forwarders := cmd.zone == TurbonetZone || cmd.zone == PufferZone;
      && (SffCmd in told <==> forwarders && OfInstance(cmd.cmdType))
      && (VnfCmd in told <==> forwarders && OfInstance(cmd.cmdType))
      && (P4Cmd in told <==> cmd.zone == TurbonetZone)
      && (NetworkCmd in told <==> cmd.zone == PufferZone)
      && (ClassifierCmd in told <==> cmd.zone == PufferZone && server)
      && (SimulatorCmd in told <==> cmd.zone == SimulatorZone)
  {
  }

  lemma NamesTold(s: Sys, p: CmdID)
    requires Inv(s) && p in s.family
    ensures p in s.accepted && s.family[p].Keys == NamesOf(s.server, s.accepted[p])
  {
    assert ParentLinked(s, p);
    ViewOfIsView(s, p);
    assert FamilyOk(NamesOf(s.server, s.accepted[p]), ViewOf(s, p));
  }

  /** Who is told of a command, component by component. */
  lemma WhoIsTold(s: Sys, p: CmdID)
    requires Reachable(s) && p in s.accepted
    ensures p in s.family
    ensures var told, cmd := s.family[p].Keys, s.accepted[p];
      var forwarders := cmd.zone == TurbonetZone || cmd.zone == PufferZone;
      && (SffCmd in told <==> forwarders && OfInstance(cmd.cmdType))
      && (VnfCmd in told <==> forwarders && OfInstance(cmd.cmdType))
      && (P4Cmd in told <==> cmd.zone == TurbonetZone)
      && (NetworkCmd in told <==> cmd.zone == PufferZone)
      && (ClassifierCmd in told <==> cmd.zone == PufferZone && s.server)
      && (SimulatorCmd in told <==> cmd.zone == SimulatorZone)
  {
    ReachableInv(s);
    NamesTold(s, p);
    NamesToTell(s.server, s.accepted[p]);
  }

  /** Whoever is told of an addition is told of the removal. */
  lemma ToldOfBoth(s: Sys, p: CmdID, q: CmdID)
    requires Reachable(s) && p in s.accepted && q in s.accepted && s.accepted[p].zone == s.accepted[q].zone
    requires OfInstance(s.accepted[p].cmdType) <==> OfInstance(s.accepted[q].cmdType)
    ensures p in s.family && q in s.family && s.family[p].Keys == s.family[q].Keys
  {
    WhoIsTold(s, p);
    WhoIsTold(s, q);
    forall n ensures n in s.family[p] <==> n in s.family[q] {
      match n
      case ClassifierCmd | NetworkCmd | SffCmd | P4Cmd | VnfCmd | SimulatorCmd =>
    }
  }
}
