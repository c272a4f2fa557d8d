/** Runs of the mediator that show both ends an addition can come to. */
module MediatorExamples {
  import opened Tries
  import opened MediatorModel
  import opened MediatorInvariant
  import opened MediatorSteps
  import opened MediatorRuns
  import opened MediatorTheorems
  import opened MediatorOrder

  // ------------------------------------------------------------ one family, reply by reply

  /** `v` is what there is to know about `p` in a state that can be reached. */
  ghost predicate Shows(s: Sys, p: CmdID, v: View) {
    Inv(s) && IsView'(s, p, v)
  }

  lemma Awaited(s: Sys, p: CmdID, n: CmdName, v: View)
    requires Shows(s, p, v) && n in v.states && v.states[n] == Processing
    ensures v.stored && FamilyOk(v.names, v) && n in s.family[p]
    ensures var c := s.family[p][n];
      && c in s.hist.sent && c in s.store && s.store[c].cmdReply.None?
      && c in s.place && s.place[c] == Place(p, n)
  {
    StuckSeen(s, p, v);
    assert Sees(s, v, n, s.family[p][n]);
    assert v.stored;
    LiveChildPlace(s, p, n);
  }

  /** A child that is being waited for can answer, and its family moves on. */
  lemma HearChild(s: Sys, p: CmdID, n: CmdName, st: CmdState, v: View)
    requires Shows(s, p, v) && n in v.states && v.states[n] == Processing && Determined(st)
    ensures n in s.family[p] && v.stored && FamilyOk(v.names, v)
    ensures var e := Rply(CmdReply(s.family[p][n], st));
      && Legal(s, e) && Shows(Next(s, e), p, VHandle(v, n, st))
      && Next(s, e).family == s.family && Next(s, e).accepted == s.accepted
  {
    Awaited(s, p, n, v);
    var r := CmdReply(s.family[p][n], st);
    ReplyKeepsInv(s, r);
    ReplyQuietly(s, r);
    ReplyMovesFamily(s, r, v);
  }

  // ------------------------------------------------------------ playing replies

  /** Who answers, and how. */
  type Script = seq<(CmdName, CmdState)>

  predicate Names(kids: map<CmdName, CmdID>, script: Script) {
    forall i | 0 <= i < |script| :: script[i].0 in kids
  }

  function Replies(kids: map<CmdName, CmdID>, script: Script): seq<Event>
    requires Names(kids, script)
    decreases |script|
  {
    if script == [] then []
    else [Rply(CmdReply(kids[script[0].0], script[0].1))] + Replies(kids, script[1..])
  }

  function ViewAfter(v: View, script: Script): View
    decreases |script|
  {
    if script == [] then v else ViewAfter(VHandle(v, script[0].0, script[0].1), script[1..])
  }

  /** Everyone who answers is being waited for. */
  ghost predicate Playable(v: View, script: Script)
    decreases |script|
  {
    script == [] || (Heard(v, script[0].0, script[0].1) && Playable(VHandle(v, script[0].0, script[0].1), script[1..]))
  }

  /** One reply, and then a run that goes on from there. */
  lemma PlayStep(s: Sys, p: CmdID, kids: map<CmdName, CmdID>, v: View, n: CmdName, st: CmdState) returns (e: Event, t: Sys)
    requires Shows(s, p, v) && kids == s.family[p] && Heard(v, n, st)
    ensures n in kids && e == Rply(CmdReply(kids[n], st))
    ensures Shows(t, p, VHandle(v, n, st)) && t.family == s.family
    ensures Legal(s, e) && t == Next(s, e)
  {
    HearChild(s, p, n, st, v);
    e := Rply(CmdReply(kids[n], st));
    t := Next(s, e);
  }

  lemma {:induction false} Play(s: Sys, p: CmdID, kids: map<CmdName, CmdID>, v: View, script: Script)
    returns (es: seq<Event>)
    requires Shows(s, p, v) && kids == s.family[p] && Playable(v, script) && Names(kids, script)
    ensures es == Replies(kids, script)
    ensures LegalRun(s, es) && Shows(Run(s, es), p, ViewAfter(v, script)) && Run(s, es).family == s.family
    decreases |script|
  {
    if script == [] {
      es := [];
    } else {
      var n, st, rest := script[0].0, script[0].1, script[1..];
      var e, t := PlayStep(s, p, kids, v, n, st);
      var next := VHandle(v, n, st);
      es := Play(t, p, kids, next, rest);
      assert ViewAfter(v, script) == ViewAfter(next, rest);
      RunCons(s, e, es);
      es := [e] + es;
    }
  }

  // ------------------------------------------------------------ who can still be deleted

  /** A family that is not doomed has a child that is being waited for. */
  lemma SomeoneAwaited(server: bool, v: View) returns (n: CmdName)
    requires FamilyOk(NamesOf(server, v.cmd), v) && v.stored && v.cmd.zone != UnknownZone && !StuckView(v)
    ensures n in v.states && v.states[n] == Processing
  {
    n := SomeoneUndetermined(server, v);
    if v.states[n] == Waiting {
      n := SffCmd;
      FailureHeard(v);
      assert v.states[SffCmd] == Fail ==> SomeFail(v.states);
    }
  }

  lemma SomeoneUndetermined(server: bool, v: View) returns (n: CmdName)
    requires FamilyOk(NamesOf(server, v.cmd), v) && v.stored && v.cmd.zone != UnknownZone
    ensures n in v.states && !Determined(v.states[n])
  {
    ImmediateShape(server, v.cmd.zone, v.cmd.cmdType);
    assert Immediate(server, v.cmd.zone, v.cmd.cmdType)[0] in v.names;
    n :| n in v.states && !Determined(v.states[n]);
  }

  lemma FailureHeard(v: View)
    requires FamilyOk(v.names, v) && v.stored
    ensures SomeFail(v.states) ==> SomeFail(v.answers)
  {
    if SomeFail(v.states) {
      var m :| m in v.states && v.states[m] == Fail;
      assert v.answers[m] == Fail;
    }
  }

  lemma DoomedSeen(s: Sys, p: CmdID, v: View)
    requires Shows(s, p, v)
    ensures Doomed(s, p) <==> v.cmd.zone == UnknownZone || StuckView(v)
    ensures FamilyOk(NamesOf(s.server, v.cmd), v)
  {
    StuckSeen(s, p, v);
  }

  lemma MoreAnswers(v: View, n: CmdName, st: CmdState)
    requires FamilyOk(v.names, v) && Heard(v, n, st)
    ensures var w := VHandle(v, n, st); w.names == v.names && |w.answers| == |v.answers| + 1 <= |w.names|
  {
    ReactAnswers(VAnswer(v, n, st), n);
    HandledShape(v, n, st);
    Smaller(VHandle(v, n, st).answers.Keys, v.names);
  }

  lemma {:induction false} Smaller(a: set<CmdName>, b: set<CmdName>)
    requires a <= b
    ensures |a| <= |b|
  {
    assert b == a + (b - a);
  }

  /** The children that are being waited for answer with success, one by one. */
  lemma {:induction false} FinishFamily(s: Sys, p: CmdID, v: View) returns (es: seq<Event>)
    requires Shows(s, p, v) && !Doomed(s, p) && v.stored && |v.answers| <= |v.names|
    ensures LegalRun(s, es) && p !in Run(s, es).store
    decreases |v.names| - |v.answers|
  {
    DoomedSeen(s, p, v);
    var n := SomeoneAwaited(s.server, v);
    var e := Rply(CmdReply(s.family[p][n], Successful));
    var t, w := Next(s, e), VHandle(v, n, Successful);
    HearChild(s, p, n, Successful, v);
    MoreAnswers(v, n, Successful);
    NotStuckBySuccess(v, n, Successful);
    DoomedSeen(t, p, w);
    if w.stored {
      es := FinishFamily(t, p, w);
    } else {
      es := [];
    }
    RunCons(s, e, es);
    es := [e] + es;
  }

  lemma RunCons(s: Sys, e: Event, es: seq<Event>)
    ensures Run(s, [e] + es) == Run(Next(s, e), es)
    ensures LegalRun(s, [e] + es) <==> Legal(s, e) && LegalRun(Next(s, e), es)
  {
    assert ([e] + es)[1..] == es;
  }

  ghost predicate Deletes(s: Sys, p: CmdID, es: seq<Event>) {
    LegalRun(s, es) && p !in Run(s, es).store
  }

  /** In every state a family can still be deleted exactly if it is not doomed. */
  lemma DoomedExactly(s: Sys, p: CmdID)
    requires Reachable(s) && p in s.accepted
    ensures (exists es :: Deletes(s, p, es)) <==> !Doomed(s, p)
  {
    ReachableInv(s);
    var v := ViewOf(s, p);
    ViewOfIsView(s, p);
    DoomedSeen(s, p, v);
    if Doomed(s, p) {
      forall es | LegalRun(s, es) ensures p in Run(s, es).store { StuckForever(s, es, p); }
    } else if v.stored {
      Smaller(v.answers.Keys, v.names);
      var es := FinishFamily(s, p, v);
      assert Deletes(s, p, es);
    } else {
      assert Deletes(s, p, []);
    }
  }

  // ------------------------------------------------------------ two runs of one addition

  /** An addition that goes to the forwarders and to the programmable switches. */
  predicate IsTurbonetAddition(cmd: Command) {
    cmd.zone == TurbonetZone && cmd.cmdType == AddSfci
  }

  function Failure(c: CmdID): Event {
    Rply(CmdReply(c, Fail))
  }

  function Success(c: CmdID): Event {
    Rply(CmdReply(c, Successful))
  }

  /** The children filed so far. */
  function Filed(f: map<CmdName, CmdID>, names: seq<CmdName>, uuids: seq<CmdID>): map<CmdName, CmdID>
    requires |names| <= |uuids|
  {
    if names == [] then f
    else Filed(f, names[..|names| - 1], uuids)[names[|names| - 1] := uuids[|names| - 1]]
  }

  lemma {:induction false} ForwardAllFiles(s: Sys, p: CmdID, names: seq<CmdName>, uuids: seq<CmdID>)
    requires p in s.store && p in s.family && |names| <= |uuids|
    ensures ForwardAll(s, p, names, uuids).family == s.family[p := Filed(s.family[p], names, uuids)]
  {
    if names != [] { ForwardAllFiles(s, p, names[..|names| - 1], uuids); }
  }

  lemma FiledTwo(f: map<CmdName, CmdID>, a: CmdName, b: CmdName, uuids: seq<CmdID>)
    requires |uuids| == 4
    ensures Filed(f, [a, b], uuids) == f[a := uuids[0]][b := uuids[1]]
  {
    var one, none := [a], [];
    assert [a, b][..1] == one && one[..0] == none;
    assert Filed(f, none, uuids) == f;
    assert Filed(f, one, uuids) == f[a := uuids[0]];
  }

  lemma FirstCommand(server: bool, cmd: Command, uuids: seq<CmdID>)
    requires FreshIds(Initial(server), cmd.cmdID, uuids)
    ensures Shows(HandleCommand(Initial(server), cmd, uuids), cmd.cmdID, FirstView(server, cmd))
  {
    InitialOrdered(server);
    CommandKeepsInv(Initial(server), cmd, uuids);
    CommandMoves(Initial(server), cmd, uuids);
  }

  /** The forwarders are the first child, the switches the second, the functions the third. */
  function KidsOf(uuids: seq<CmdID>): map<CmdName, CmdID>
    requires |uuids| == 4
  {
    map[SffCmd := uuids[0], P4Cmd := uuids[1], VnfCmd := uuids[2]]
  }

  lemma TwoFiled(start: Sys, p: CmdID, names: seq<CmdName>, uuids: seq<CmdID>) returns (kids: map<CmdName, CmdID>)
    requires p in start.store && start.family == map[p := map[]] && names == [SffCmd, P4Cmd] && |uuids| == 4
    ensures ForwardAll(start, p, names, uuids).family == map[p := kids]
    ensures kids[VnfCmd := uuids[2]] == KidsOf(uuids)
  {
    ForwardAllFiles(start, p, names, uuids);
    FiledTwo(map[], SffCmd, P4Cmd, uuids);
    kids := map[SffCmd := uuids[0], P4Cmd := uuids[1]];
  }

  lemma AdditionFiles(s: Sys, cmd: Command, uuids: seq<CmdID>)
    requires s.family == map[] && |uuids| == 4 && IsTurbonetAddition(cmd)
    ensures HandleCommand(s, cmd, uuids).family == map[cmd.cmdID := KidsOf(uuids)]
  {
    var names := [SffCmd, P4Cmd];
    var kids := TwoFiled(Start(s, cmd), cmd.cmdID, names, uuids);
    HandledAddition(s, cmd, uuids, names, kids);
  }

  lemma HandledAddition(s: Sys, cmd: Command, uuids: seq<CmdID>, names: seq<CmdName>, kids: map<CmdName, CmdID>)
    requires |uuids| == 4 && IsTurbonetAddition(cmd) && names == [SffCmd, P4Cmd]
    requires ForwardAll(Start(s, cmd), cmd.cmdID, names, uuids).family == map[cmd.cmdID := kids]
    ensures HandleCommand(s, cmd, uuids).family == map[cmd.cmdID := kids[VnfCmd := uuids[2]]]
  {
    HandledLast(s, cmd, uuids, names);
    FunctionsFiled(ForwardAll(Start(s, cmd), cmd.cmdID, names, uuids), cmd.cmdID, kids, uuids[2]);
  }

  lemma HandledLast(s: Sys, cmd: Command, uuids: seq<CmdID>, names: seq<CmdName>)
    requires |uuids| == 4 && IsTurbonetAddition(cmd) && names == [SffCmd, P4Cmd]
    ensures HandleCommand(s, cmd, uuids) ==
      Prepare(ForwardAll(Start(s, cmd), cmd.cmdID, names, uuids), cmd.cmdID, VnfCmd, uuids[2])
  {
  }

  lemma FunctionsFiled(t: Sys, p: CmdID, kids: map<CmdName, CmdID>, c: CmdID)
    requires p in t.store && t.family == map[p := kids]
    ensures Prepare(t, p, VnfCmd, c).family == map[p := kids[VnfCmd := c]]
  {
  }

  /** Nobody is still to answer if nobody of the only family is. */
  lemma OnlyFamilyQuiet(s: Sys, p: CmdID, v: View)
    requires Shows(s, p, v) && s.family.Keys == {p} && v.sent.Keys <= v.answers.Keys
    ensures Quiet(s)
  {
    forall c | c in s.hist.sent ensures c in s.hist.answers {
      assert ChildLinked(s, c);
      assert Sees(s, v, s.place[c].name, c);
    }
  }

  /** What is known of the addition when it has arrived. */
  function Arrived(cmd: Command): View {
    View(cmd, true, {SffCmd, P4Cmd, VnfCmd},
         map[SffCmd := Processing, P4Cmd := Processing, VnfCmd := Waiting], map[], map[SffCmd := 1, P4Cmd := 1], [])
  }

  lemma ArrivedIsFirst(server: bool, cmd: Command)
    requires IsTurbonetAddition(cmd)
    ensures FirstView(server, cmd) == Arrived(cmd)
  {
    var names := [SffCmd, P4Cmd];
    assert Immediate(server, cmd.zone, cmd.cmdType) == names;
    assert names[0] == SffCmd && names[1] == P4Cmd;
    assert NameSet(names) == {SffCmd, P4Cmd};
  }

  // the switches fail first

  function SwitchesFailed(cmd: Command): View {
    Arrived(cmd).(states := map[SffCmd := Processing, P4Cmd := Fail, VnfCmd := Waiting],
                  answers := map[P4Cmd := Fail], replies := [Fail])
  }

  function OnlyFunctionsLeft(cmd: Command): View {
    SwitchesFailed(cmd).(states := map[SffCmd := Successful, P4Cmd := Fail, VnfCmd := Waiting],
                         answers := map[P4Cmd := Fail, SffCmd := Successful])
  }

  lemma SwitchesFail(cmd: Command)
    requires IsTurbonetAddition(cmd)
    ensures VHandle(Arrived(cmd), P4Cmd, Fail) == SwitchesFailed(cmd)
  {
    var a := VAnswer(Arrived(cmd), P4Cmd, Fail);
    assert FailNames(a) == {P4Cmd};
    assert a.states == SwitchesFailed(cmd).states;
    assert !AllAnswered(a.states) by { assert a.states[VnfCmd] == Waiting; }
  }

  lemma ForwardersFollow(cmd: Command)
    requires IsTurbonetAddition(cmd)
    ensures VHandle(SwitchesFailed(cmd), SffCmd, Successful) == OnlyFunctionsLeft(cmd)
    ensures StuckView(OnlyFunctionsLeft(cmd))
  {
    var a := VAnswer(SwitchesFailed(cmd), SffCmd, Successful);
    assert FailNames(a) == {P4Cmd};
    assert a.states == OnlyFunctionsLeft(cmd).states;
    assert !AllAnswered(a.states) by { assert a.states[VnfCmd] == Waiting; }
    assert OnlyFunctionsLeft(cmd).answers[P4Cmd] == Fail;
  }

  lemma AdditionArrives(server: bool, cmd: Command, uuids: seq<CmdID>)
    requires IsTurbonetAddition(cmd) && FreshIds(Initial(server), cmd.cmdID, uuids)
    ensures var s := HandleCommand(Initial(server), cmd, uuids);
      Shows(s, cmd.cmdID, Arrived(cmd)) && s.family == map[cmd.cmdID := KidsOf(uuids)]
  {
    FirstCommand(server, cmd, uuids);
    ArrivedIsFirst(server, cmd);
    AdditionFiles(Initial(server), cmd, uuids);
  }

  /** The addition arrives at a mediator that has just started, and then these answer. */
  function AdditionRun(cmd: Command, uuids: seq<CmdID>, script: Script): seq<Event>
    requires |uuids| == 4 && Names(KidsOf(uuids), script)
  {
    [Cmd(cmd, uuids)] + Replies(KidsOf(uuids), script)
  }

  lemma PlayAddition(server: bool, cmd: Command, uuids: seq<CmdID>, script: Script)
    requires IsTurbonetAddition(cmd) && FreshIds(Initial(server), cmd.cmdID, uuids)
    requires Playable(Arrived(cmd), script) && Names(KidsOf(uuids), script)
    ensures var es := AdditionRun(cmd, uuids, script); var t := Run(Initial(server), es);
      && LegalRun(Initial(server), es) && t.family.Keys == {cmd.cmdID}
      && Shows(t, cmd.cmdID, ViewAfter(Arrived(cmd), script))
  {
    AdditionArrives(server, cmd, uuids);
    var s := HandleCommand(Initial(server), cmd, uuids);
    PlayFrom(s, cmd.cmdID, KidsOf(uuids), Arrived(cmd), script);
    RunCons(Initial(server), Cmd(cmd, uuids), Replies(KidsOf(uuids), script));
  }

  lemma PlayFrom(s: Sys, p: CmdID, kids: map<CmdName, CmdID>, v: View, script: Script)
    requires Shows(s, p, v) && s.family == map[p := kids] && Playable(v, script) && Names(kids, script)
    ensures var es := Replies(kids, script);
      LegalRun(s, es) && Shows(Run(s, es), p, ViewAfter(v, script)) && Run(s, es).family == s.family
  {
    var es := Play(s, p, kids, v, script);
  }

  lemma LastView(s: Sys, p: CmdID, v: View)
    requires Shows(s, p, v) && s.family.Keys == {p}
    ensures v.sent.Keys <= v.answers.Keys ==> Quiet(s)
    ensures v.stored <==> p in s.store
    ensures StuckView(v) ==> Doomed(s, p)
  {
    DoomedSeen(s, p, v);
    if v.sent.Keys <= v.answers.Keys { OnlyFamilyQuiet(s, p, v); }
  }

  const FAILURE_FIRST: Script := [(P4Cmd, Fail), (SffCmd, Successful)]

  /** If the switches fail before the forwarders report success, the addition stays for ever. */
  lemma FailureFirst(server: bool, cmd: Command, uuids: seq<CmdID>)
    requires IsTurbonetAddition(cmd) && FreshIds(Initial(server), cmd.cmdID, uuids)
    ensures var es := AdditionRun(cmd, uuids, FAILURE_FIRST); var s := Run(Initial(server), es);
      LegalRun(Initial(server), es) && Quiet(s) && cmd.cmdID in s.store && Doomed(s, cmd.cmdID)
  {
    FailureFirstViews(cmd);
    PlayAddition(server, cmd, uuids, FAILURE_FIRST);
    LastView(Run(Initial(server), AdditionRun(cmd, uuids, FAILURE_FIRST)), cmd.cmdID, OnlyFunctionsLeft(cmd));
  }

  lemma FailureFirstViews(cmd: Command)
    requires IsTurbonetAddition(cmd)
    ensures Playable(Arrived(cmd), FAILURE_FIRST) && ViewAfter(Arrived(cmd), FAILURE_FIRST) == OnlyFunctionsLeft(cmd)
    ensures StuckView(OnlyFunctionsLeft(cmd))
  {
    SwitchesFail(cmd);
    ForwardersFollow(cmd);
    assert FAILURE_FIRST == [(P4Cmd, Fail)] + [(SffCmd, Successful)];
    PlayOne(SwitchesFailed(cmd), SffCmd, Successful);
    PlayMore(Arrived(cmd), P4Cmd, Fail, [(SffCmd, Successful)]);
  }

  lemma PlayMore(v: View, n: CmdName, st: CmdState, rest: Script)
    ensures ViewAfter(v, [(n, st)] + rest) == ViewAfter(VHandle(v, n, st), rest)
    ensures Playable(v, [(n, st)] + rest) <==> Heard(v, n, st) && Playable(VHandle(v, n, st), rest)
  {
    assert ([(n, st)] + rest)[1..] == rest;
  }

  lemma PlayOne(v: View, n: CmdName, st: CmdState)
    ensures ViewAfter(v, [(n, st)]) == VHandle(v, n, st)
    ensures Playable(v, [(n, st)]) <==> Heard(v, n, st)
  {
    var none: Script := [];
    PlayMore(v, n, st, none);
    assert [(n, st)] + none == [(n, st)];
  }

  // the forwarders succeed first

  function ForwardersReady(cmd: Command): View {
    Arrived(cmd).(states := map[SffCmd := Successful, P4Cmd := Processing, VnfCmd := Processing],
                  answers := map[SffCmd := Successful], sent := map[SffCmd := 1, P4Cmd := 1, VnfCmd := 1])
  }

  function SwitchesFailedLater(cmd: Command): View {
    ForwardersReady(cmd).(states := map[SffCmd := Successful, P4Cmd := Fail, VnfCmd := Processing],
                          answers := map[SffCmd := Successful, P4Cmd := Fail], replies := [Fail])
  }

  lemma ForwardersLead(cmd: Command)
    requires IsTurbonetAddition(cmd)
    ensures VHandle(Arrived(cmd), SffCmd, Successful) == ForwardersReady(cmd)
  {
    var a := VAnswer(Arrived(cmd), SffCmd, Successful);
    assert FailNames(a) == {};
    assert a.states[P4Cmd] == Processing;
    assert VForward(a, VnfCmd) == ForwardersReady(cmd);
    assert ForwardersReady(cmd).states[P4Cmd] == Processing;
  }

  lemma SwitchesFailLater(cmd: Command)
    requires IsTurbonetAddition(cmd)
    ensures VHandle(ForwardersReady(cmd), P4Cmd, Fail) == SwitchesFailedLater(cmd)
  {
    var a := VAnswer(ForwardersReady(cmd), P4Cmd, Fail);
    assert FailNames(a) == {P4Cmd};
    assert a.states == SwitchesFailedLater(cmd).states && a.answers == SwitchesFailedLater(cmd).answers;
    assert !AllAnswered(a.states) by { assert a.states[VnfCmd] == Processing; }
  }

  function Finished(cmd: Command): View {
    SwitchesFailedLater(cmd).(
      stored := false, states := map[], answers := map[SffCmd := Successful, P4Cmd := Fail, VnfCmd := Successful])
  }

  lemma FunctionsLast(cmd: Command)
    requires IsTurbonetAddition(cmd)
    ensures VHandle(SwitchesFailedLater(cmd), VnfCmd, Successful) == Finished(cmd)
  {
    var a := VAnswer(SwitchesFailedLater(cmd), VnfCmd, Successful);
    assert FailNames(a) == {P4Cmd} && a.states[P4Cmd] == Fail && a.states[VnfCmd] == Successful;
    assert VReact(a, VnfCmd) == a;
    assert AllAnswered(a.states) && a.answers == Finished(cmd).answers;
  }

  const LAST_TWO: Script := [(P4Cmd, Fail), (VnfCmd, Successful)]
  const SUCCESS_FIRST: Script := [(SffCmd, Successful)] + LAST_TWO

  lemma LastTwoViews(cmd: Command)
    requires IsTurbonetAddition(cmd)
    ensures Playable(ForwardersReady(cmd), LAST_TWO) && ViewAfter(ForwardersReady(cmd), LAST_TWO) == Finished(cmd)
  {
    SwitchesFailLater(cmd);
    FunctionsLast(cmd);
    assert LAST_TWO == [(P4Cmd, Fail)] + [(VnfCmd, Successful)];
    PlayOne(SwitchesFailedLater(cmd), VnfCmd, Successful);
    PlayMore(ForwardersReady(cmd), P4Cmd, Fail, [(VnfCmd, Successful)]);
  }

  lemma SuccessFirstViews(cmd: Command)
    requires IsTurbonetAddition(cmd)
    ensures Playable(Arrived(cmd), SUCCESS_FIRST) && ViewAfter(Arrived(cmd), SUCCESS_FIRST) == Finished(cmd)
  {
    ForwardersLead(cmd);
    LastTwoViews(cmd);
    PlayMore(Arrived(cmd), SffCmd, Successful, LAST_TWO);
  }

  /** The same answers in the other order: the functions are asked as well, and once they
      have answered the addition is deleted. */
  lemma SuccessFirst(server: bool, cmd: Command, uuids: seq<CmdID>)
    requires IsTurbonetAddition(cmd) && FreshIds(Initial(server), cmd.cmdID, uuids)
    ensures var es := AdditionRun(cmd, uuids, SUCCESS_FIRST); var s := Run(Initial(server), es);
      LegalRun(Initial(server), es) && Quiet(s) && cmd.cmdID !in s.store
  {
    SuccessFirstViews(cmd);
    PlayAddition(server, cmd, uuids, SUCCESS_FIRST);
    LastView(Run(Initial(server), AdditionRun(cmd, uuids, SUCCESS_FIRST)), cmd.cmdID, Finished(cmd));
  }
}
