/** Whole runs of the mediator: commands with fresh identifiers and replies to forwarded
    children, in any order, with any duplicates. */
module MediatorRuns {
  import opened Tries
  import opened MediatorModel
  import opened MediatorInvariant
  import opened MediatorSteps

  // ------------------------------------------------------------ a command arrives

  /** The identifiers of a command and of its children-to-be are new and distinct. */
  ghost predicate FreshIds(s: Sys, p: CmdID, uuids: seq<CmdID>) {
    && |uuids| == 4 && !Known(s, p) && p !in uuids
    && (forall i | 0 <= i < 4 :: !Known(s, uuids[i]))
    && forall i, j | 0 <= i < j < 4 :: uuids[i] != uuids[j]
  }

  /** A family whose children have all been forwarded and none has answered. */
  function SentView(cmd: Command, names: set<CmdName>): View {
    View(cmd, true, names, map n | n in names :: Processing, map[], map n | n in names :: 1, [])
  }

  lemma SentViewStep(cmd: Command, names: set<CmdName>, n: CmdName)
    requires n !in names
    ensures VForward(VPrepare(SentView(cmd, names), n), n) == SentView(cmd, names + {n})
  {
  }

  /** Preparing a child and forwarding it at once. */
  lemma SendMoves(s: Sys, p: CmdID, cmd: Command, names: set<CmdName>, n: CmdName, c: CmdID)
    requires Linked(s) && p in s.family && p in s.store && !Known(s, c)
    requires IsView(s, p, SentView(cmd, names)) && n !in names
    ensures Moves(s, Forward(Prepare(s, p, n, c), p, n, c), p, SentView(cmd, names + {n}))
  {
    var v := SentView(cmd, names);
    PrepareMoves(s, p, n, c, v);
    ForwardMoves(Prepare(s, p, n, c), p, n, VPrepare(v, n));
    MovesTrans(s, Prepare(s, p, n, c), Forward(Prepare(s, p, n, c), p, n, c), p, VPrepare(v, n), VForward(VPrepare(v, n), n));
    SentViewStep(cmd, names, n);
  }

  function NameSet(names: seq<CmdName>): set<CmdName> {
    set n | n in names
  }

  lemma NameSetLast(names: seq<CmdName>)
    requires names != [] && NoDuplicates(names)
    ensures var n := |names| - 1;
      NameSet(names) == NameSet(names[..n]) + {names[n]} && names[n] !in NameSet(names[..n]) && NoDuplicates(names[..n])
  {
  }

  predicate NoDuplicates<T(==)>(xs: seq<T>) {
    forall i, j | 0 <= i < j < |xs| :: xs[i] != xs[j]
  }

  lemma {:induction false} ForwardAllKnown(s: Sys, p: CmdID, names: seq<CmdName>, uuids: seq<CmdID>, id: CmdID)
    requires p in s.store && p in s.family && |names| <= |uuids|
    requires Known(ForwardAll(s, p, names, uuids), id)
    ensures Known(s, id) || exists i :: 0 <= i < |names| && uuids[i] == id
  {
    if names != [] {
      var n := |names| - 1;
      if id != uuids[n] { ForwardAllKnown(s, p, names[..n], uuids, id); }
    }
  }

  lemma {:induction false} ForwardAllMoves(s: Sys, p: CmdID, cmd: Command, names: seq<CmdName>, uuids: seq<CmdID>)
    requires Linked(s) && p in s.family && p in s.store && |names| <= |uuids| && IsView(s, p, SentView(cmd, {}))
    requires forall i | 0 <= i < |names| :: !Known(s, uuids[i])
    requires NoDuplicates(uuids) && NoDuplicates(names)
    ensures Moves(s, ForwardAll(s, p, names, uuids), p, SentView(cmd, NameSet(names)))
  {
    if names == [] {
      assert NameSet(names) == {} && s.family.Keys == s.family.Keys + {p};
    } else {
      var n := |names| - 1;
      var s1 := ForwardAll(s, p, names[..n], uuids);
      NameSetLast(names);
      ForwardAllMoves(s, p, cmd, names[..n], uuids);
      if Known(s1, uuids[n]) { ForwardAllKnown(s, p, names[..n], uuids, uuids[n]); }
      SendMoves(s1, p, cmd, NameSet(names[..n]), names[n], uuids[n]);
      MovesTrans(s, s1, ForwardAll(s, p, names, uuids), p,
        SentView(cmd, NameSet(names[..n])), SentView(cmd, NameSet(names)));
    }
  }

  lemma ImmediateShape(server: bool, zone: Zone, t: CmdType)
    ensures var names := Immediate(server, zone, t);
      && |names| <= 4 && NoDuplicates(names) && (names == [] <==> zone == UnknownZone)
      && (Deferred(zone, t) ==> VnfCmd !in names && SffCmd in names && |names| <= 3)
  {
  }

  /** What a new family looks like. */
  function FirstView(server: bool, cmd: Command): View {
    var v := SentView(cmd, NameSet(Immediate(server, cmd.zone, cmd.cmdType)));
    if Deferred(cmd.zone, cmd.cmdType) then VPrepare(v, VnfCmd) else v
  }

  lemma FirstViewOk(server: bool, cmd: Command)
    ensures FamilyOk(NamesOf(server, cmd), FirstView(server, cmd))
  {
    ImmediateShape(server, cmd.zone, cmd.cmdType);
    var names := Immediate(server, cmd.zone, cmd.cmdType);
    var v := FirstView(server, cmd);
    if names != [] {
      assert names[0] in v.states && v.states[names[0]] == Processing;
    }
  }

  lemma CommandMoves(s: Sys, cmd: Command, uuids: seq<CmdID>)
    requires Linked(s) && FreshIds(s, cmd.cmdID, uuids)
    ensures Moves(s, HandleCommand(s, cmd, uuids), cmd.cmdID, FirstView(s.server, cmd))
  {
    var p := cmd.cmdID;
    var names := Immediate(s.server, cmd.zone, cmd.cmdType);
    ImmediateShape(s.server, cmd.zone, cmd.cmdType);
    var s1 := Start(s, cmd);
    StartMoves(s, cmd);
    assert NoView(cmd) == SentView(cmd, {});
    ForwardAllMoves(s1, p, cmd, names, uuids);
    var s2 := ForwardAll(s1, p, names, uuids);
    var v2 := SentView(cmd, NameSet(names));
    MovesTrans(s, s1, s2, p, NoView(cmd), v2);
    if Deferred(cmd.zone, cmd.cmdType) {
      var c := uuids[|names|];
      if Known(s2, c) { ForwardAllKnown(s1, p, names, uuids, c); }
      PrepareMoves(s2, p, VnfCmd, c, v2);
      MovesTrans(s, s2, Prepare(s2, p, VnfCmd, c), p, v2, VPrepare(v2, VnfCmd));
    }
  }

  /** A step that moves one family to a right state keeps all families right. */
  lemma MovesKeepInv(s: Sys, t: Sys, p: CmdID, v: View)
    requires Inv(s) && Moves(s, t, p, v) && FamilyOk(NamesOf(t.server, v.cmd), v)
    ensures Inv(t)
  {
    forall q, w | q in t.family && IsView(t, q, w) ensures FamilyOk(NamesOf(t.server, t.accepted[q]), w) {
      if q == p {
        ViewIsUnique(t, p, v, w);
      } else {
        ViewOfIsView(s, q);
        ViewIsUnique(t, q, ViewOf(s, q), w);
      }
    }
  }

  lemma CommandKeepsInv(s: Sys, cmd: Command, uuids: seq<CmdID>)
    requires Inv(s) && FreshIds(s, cmd.cmdID, uuids)
    ensures Inv(HandleCommand(s, cmd, uuids))
  {
    CommandMoves(s, cmd, uuids);
    FirstViewOk(s.server, cmd);
    MovesKeepInv(s, HandleCommand(s, cmd, uuids), cmd.cmdID, FirstView(s.server, cmd));
  }

  // ------------------------------------------------------------ a reply arrives

  lemma ReleaseMoves(s: Sys, p: CmdID, v: View)
    requires Linked(s) && p in s.family && p in s.store && IsView(s, p, v) && FamilyStored(s.store, p)
    ensures var w :=
      if v.cmd.cmdType == AddSfci && SffCmd in v.states && VnfCmd in v.states
         && v.states[SffCmd] == Successful && v.states[VnfCmd] == Waiting then VForward(v, VnfCmd) else v;
      Moves(s, Release(s, p), p, w)
  {
    LiveFamily(s, p, v);
    if Release(s, p) != s {
      var c := s.family[p][VnfCmd];
      var info := s.store[c].(cmd := s.store[c].cmd.(source := "unknown"));
      LiveChildPlace(s, p, VnfCmd);
      MarkChildMoves(s, p, VnfCmd, info, v);
      var s1 := s.(store := s.store[c := info]);
      assert v.states[VnfCmd := info.state] == v.states;
      ForwardMoves(s1, p, VnfCmd, v);
      MovesTrans(s, s1, Release(s, p), p, v, VForward(v, VnfCmd));
    } else {
      assert s.family.Keys == s.family.Keys + {p};
    }
  }

  lemma FailuresSeen(s: Sys, p: CmdID, v: View)
    requires Linked(s) && p in s.family && p in s.store && IsView(s, p, v) && FamilyStored(s.store, p)
    ensures AllSuccessful(s.store, p) <==> forall n | n in v.states :: v.states[n] == Successful
    ensures ChildrenIn(s.store, p, Fail) == FailNames(v)
    ensures VnfCmd in v.states && v.states[VnfCmd] == Waiting ==> ChildrenIn(s.store, p, Waiting) != {}
    ensures AllDetermined(s.store, p) <==> AllAnswered(v.states)
  {
    LiveFamily(s, p, v);
    assert VnfCmd in v.states && v.states[VnfCmd] == Waiting ==> VnfCmd in ChildrenIn(s.store, p, Waiting);
  }

  lemma StandStill(s: Sys, p: CmdID, v: View)
    requires Linked(s) && p in s.family && IsView(s, p, v)
    ensures Moves(s, s, p, v)
  {
    assert s.family.Keys == s.family.Keys + {p};
  }

  /** The family is stored and looks like `v`. */
  ghost predicate Watched(s: Sys, p: CmdID, v: View) {
    Linked(s) && p in s.family && p in s.store && IsView(s, p, v) && FamilyStored(s.store, p)
  }

  lemma ReactAllWell(s: Sys, p: CmdID, c: CmdID, n: CmdName, v: View)
    requires Watched(s, p, v) && c in s.store && AllSuccessful(s.store, p)
    ensures Moves(s, React(s, p, c), p, VReact(v, n))
  {
    FailuresSeen(s, p, v);
    ReplyMoves(s, p, Successful, v);
  }

  lemma ReactFailed(s: Sys, p: CmdID, c: CmdID, n: CmdName, v: View)
    requires Watched(s, p, v) && c in s.store && !AllSuccessful(s.store, p) && FailNames(v) != {}
    requires n in v.states && v.states[n] == s.store[c].state
    ensures Moves(s, React(s, p, c), p, VReact(v, n))
  {
    FailuresSeen(s, p, v);
    if |FailNames(v)| == 1 && v.states[n] == Fail { ReplyMoves(s, p, Fail, v); } else { StandStill(s, p, v); }
  }

  lemma ReactReleases(s: Sys, p: CmdID, c: CmdID, n: CmdName, v: View)
    requires Watched(s, p, v) && c in s.store && !AllSuccessful(s.store, p) && FailNames(v) == {}
    requires ChildrenIn(s.store, p, Waiting) != {}
    ensures Moves(s, React(s, p, c), p, VReact(v, n))
  {
    FailuresSeen(s, p, v);
    ReleaseMoves(s, p, v);
    assert React(s, p, c) == Release(s, p);
  }

  lemma ReactStands(s: Sys, p: CmdID, c: CmdID, n: CmdName, v: View)
    requires Watched(s, p, v) && c in s.store && !AllSuccessful(s.store, p) && FailNames(v) == {}
    requires ChildrenIn(s.store, p, Waiting) == {}
    ensures Moves(s, React(s, p, c), p, VReact(v, n))
  {
    FailuresSeen(s, p, v);
    StandStill(s, p, v);
    assert React(s, p, c) == s && VReact(v, n) == v;
  }

  lemma ReactMoves(s: Sys, p: CmdID, n: CmdName, v: View)
    requires Linked(s) && LiveChild(s, p, n) && IsView(s, p, v) && FamilyStored(s.store, p)
    requires s.family[p][n] in s.store && n in v.states
    ensures Moves(s, React(s, p, s.family[p][n]), p, VReact(v, n))
  {
    var c := s.family[p][n];
    assert v.states[n] == s.store[c].state by { assert Sees(s, v, n, s.family[p][n]); }
    FailuresSeen(s, p, v);
    if AllSuccessful(s.store, p) {
      ReactAllWell(s, p, c, n, v);
    } else if FailNames(v) != {} {
      ReactFailed(s, p, c, n, v);
    } else if ChildrenIn(s.store, p, Waiting) != {} {
      ReactReleases(s, p, c, n, v);
    } else {
      ReactStands(s, p, c, n, v);
    }
  }

  lemma CleanUpMoves(s: Sys, p: CmdID, v: View)
    requires Linked(s) && p in s.family && p in s.store && IsView(s, p, v) && FamilyStored(s.store, p)
    ensures Moves(s, CleanUp(s, p), p, VCleanUp(v))
  {
    FailuresSeen(s, p, v);
    if AllAnswered(v.states) { DeleteMoves(s, p, v); } else { StandStill(s, p, v); }
  }

  /** Replies come from whoever was sent a command, and say how it ended. */
  ghost predicate LegalReply(s: Sys, r: CmdReply) {
    r.cmdID in s.hist.sent && Determined(r.cmdState)
  }

  lemma LegalReplyReady(s: Sys, r: CmdReply)
    requires Linked(s) && LegalReply(s, r)
    ensures ReplyReady(s, r) && r.cmdID in s.place && s.place[r.cmdID].parent in s.family
    ensures r.cmdID in s.store ==>
      && LiveChild(s, s.place[r.cmdID].parent, s.place[r.cmdID].name)
      && s.family[s.place[r.cmdID].parent][s.place[r.cmdID].name] == r.cmdID
      && s.store[r.cmdID].parentCmdID == Some(s.place[r.cmdID].parent)
      && (s.store[r.cmdID].cmdReply.Some? <==> r.cmdID in s.hist.answers)
  {
    assert ChildLinked(s, r.cmdID);
    var p := s.place[r.cmdID].parent;
    assert ParentLinked(s, p);
    if r.cmdID in s.store {
      ViewOfIsView(s, p);
      LiveFamily(s, p, ViewOf(s, p));
    }
  }

  /** A reply that is heard moves its family as the family's own rules say. */
  lemma ReplyMovesFamily(s: Sys, r: CmdReply, v: View)
    requires Linked(s) && LegalReply(s, r) && ReplyReady(s, r)
    requires r.cmdID in s.store && s.store[r.cmdID].cmdReply.None?
    requires var p := s.place[r.cmdID].parent; p in s.family && p in s.accepted && IsView(s, p, v)
    ensures var n := s.place[r.cmdID].name;
      n in v.states && Moves(s, HandleReply(s, r), s.place[r.cmdID].parent, VHandle(v, n, r.cmdState))
  {
    LegalReplyReady(s, r);
    var Place(p, n) := s.place[r.cmdID];
    LiveFamily(s, p, v);
    RecordMoves(s, p, n, r.cmdState, v);
    var s1, v1 := Record(s, r), VAnswer(v, n, r.cmdState);
    assert s1.family == s.family;
    LiveFamily(s1, p, v1);
    ReactMoves(s1, p, n, v1);
    var s2, v2 := React(s1, p, r.cmdID), VReact(v1, n);
    MovesTrans(s, s1, s2, p, v1, v2);
    LiveFamilyAgain(s1, s2, p);
    CleanUpMoves(s2, p, v2);
    MovesTrans(s, s2, CleanUp(s2, p), p, v2, VCleanUp(v2));
  }

  lemma LiveFamilyAgain(s: Sys, t: Sys, p: CmdID)
    requires SameShape(s.store, t.store) && FamilyStored(s.store, p)
    ensures p in t.store && FamilyStored(t.store, p)
  {
  }

  /** Whoever is heard for the first time was being waited for. */
  lemma HeardWhileProcessing(s: Sys, r: CmdReply, v: View)
    requires Inv(s) && LegalReply(s, r) && r.cmdID in s.store && s.store[r.cmdID].cmdReply.None?
    requires r.cmdID in s.place
    requires var p := s.place[r.cmdID].parent; p in s.family && p in s.accepted && IsView(s, p, v)
    ensures FamilyOk(NamesOf(s.server, v.cmd), v) && v.stored
    ensures var n := s.place[r.cmdID].name; n in v.states && v.states[n] == Processing
  {
    LegalReplyReady(s, r);
    var Place(p, n) := s.place[r.cmdID];
    assert Sees(s, v, n, s.family[p][n]);
  }

  lemma HeardKeepsInv(s: Sys, r: CmdReply, t: Sys, p: CmdID, n: CmdName, v: View)
    requires Inv(s) && FamilyOk(NamesOf(s.server, v.cmd), v) && v.stored
    requires n in v.states && v.states[n] == Processing && Determined(r.cmdState)
    requires Moves(s, t, p, VHandle(v, n, r.cmdState))
    ensures Inv(t)
  {
    AnswerKeepsFamily(NamesOf(s.server, v.cmd), v, n, r.cmdState);
    MovesKeepInv(s, t, p, VHandle(v, n, r.cmdState));
  }

  lemma ReplyKeepsInv(s: Sys, r: CmdReply)
    requires Inv(s) && LegalReply(s, r)
    ensures ReplyReady(s, r) && Inv(HandleReply(s, r))
  {
    LegalReplyReady(s, r);
    if r.cmdID in s.store && s.store[r.cmdID].cmdReply.None? {
      var Place(p, n) := s.place[r.cmdID];
      ViewOfIsView(s, p);
      HeardWhileProcessing(s, r, ViewOf(s, p));
      ReplyMovesFamily(s, r, ViewOf(s, p));
      HeardKeepsInv(s, r, HandleReply(s, r), p, n, ViewOf(s, p));
    }
  }
}
