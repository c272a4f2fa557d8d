/** What holds after every run of the mediator. */
module MediatorTheorems {
  import opened Tries
  import opened MediatorModel
  import opened MediatorInvariant
  import opened MediatorSteps
  import opened MediatorRuns

  // ------------------------------------------------------------ runs

  datatype Event = Cmd(cmd: Command, uuids: seq<CmdID>) | Rply(reply: CmdReply)

  /** Commands come with fresh identifiers; replies come from whoever was sent a command,
      once or many times, early or late, and say how the command ended. */
  ghost predicate Legal(s: Sys, e: Event) {
    match e
    case Cmd(cmd, uuids) => FreshIds(s, cmd.cmdID, uuids)
    case Rply(r) => LegalReply(s, r)
  }

  function Next(s: Sys, e: Event): Sys {
    match e
    case Cmd(cmd, uuids) => if |uuids| == 4 then HandleCommand(s, cmd, uuids) else s
    case Rply(r) => if ReplyReady(s, r) then HandleReply(s, r) else s
  }

  ghost predicate LegalRun(s: Sys, es: seq<Event>)
    decreases es
  {
    es == [] || (Legal(s, es[0]) && LegalRun(Next(s, es[0]), es[1..]))
  }

  function Run(s: Sys, es: seq<Event>): Sys
    decreases es
  {
    if es == [] then s else Run(Next(s, es[0]), es[1..])
  }

  function Initial(server: bool): Sys {
    Sys(server, map[], NOTHING_YET, map[], map[], map[])
  }

  lemma NextKeepsInv(s: Sys, e: Event)
    requires Inv(s) && Legal(s, e)
    ensures Inv(Next(s, e))
  {
    match e
    case Cmd(cmd, uuids) => CommandKeepsInv(s, cmd, uuids);
    case Rply(r) => ReplyKeepsInv(s, r);
  }

  lemma {:induction false} RunKeepsInv(s: Sys, es: seq<Event>)
    requires Inv(s) && LegalRun(s, es)
    ensures Inv(Run(s, es))
    decreases es
  {
    if es != [] {
      NextKeepsInv(s, es[0]);
      RunKeepsInv(Next(s, es[0]), es[1..]);
    }
  }

  /** Reachable by a legal run from a mediator that has just started. */
  ghost predicate Reachable(s: Sys) {
    exists server, es :: LegalRun(Initial(server), es) && s == Run(Initial(server), es)
  }

  lemma ReachableInv(s: Sys)
    requires Reachable(s)
    ensures Inv(s)
  {
    var server, es :| LegalRun(Initial(server), es) && s == Run(Initial(server), es);
    assert Inv(Initial(server));
    RunKeepsInv(Initial(server), es);
  }

  // ------------------------------------------------------------ the history is the log

  ghost predicate Told(s: Sys) {
    s.hist == Replay(s.hist.log)
  }

  lemma NoteTold(h: History, a: Action)
    requires h == Replay(h.log)
    ensures Note(h, a) == Replay(Note(h, a).log)
  {
    assert (h.log + [a])[..|h.log|] == h.log;
  }

  lemma {:induction false} ForwardAllTold(s: Sys, p: CmdID, names: seq<CmdName>, uuids: seq<CmdID>)
    requires p in s.store && p in s.family && |names| <= |uuids| && Told(s)
    ensures Told(ForwardAll(s, p, names, uuids))
  {
    if names != [] {
      var n := |names| - 1;
      ForwardAllTold(s, p, names[..n], uuids);
      var done := ForwardAll(s, p, names[..n], uuids);
      var sent := Prepare(done, p, names[n], uuids[n]).store[uuids[n]].cmd;
      NoteTold(done.hist, Forwarded(names[n], uuids[n], sent));
    }
  }

  lemma CommandTold(s: Sys, cmd: Command, uuids: seq<CmdID>)
    requires Told(s) && |uuids| == 4
    ensures Told(HandleCommand(s, cmd, uuids))
  {
    ForwardAllTold(Start(s, cmd), cmd.cmdID, Immediate(s.server, cmd.zone, cmd.cmdType), uuids);
  }

  /** What reacting adds to the history: nothing, a reply to the requester, or the VNF child
      going out. */
  ghost predicate NotesOne(s: Sys, t: Sys) {
    t.family == s.family && t.accepted == s.accepted && (t.hist == s.hist || exists a: Action :: !a.Answered? && t.hist == Note(s.hist, a))
  }

  lemma ReleaseNotes(s: Sys, p: CmdID)
    requires FamilyStored(s.store, p)
    ensures NotesOne(s, Release(s, p))
  {
    if Release(s, p) != s {
      var c := s.store[p].childCmdID[VnfCmd];
      assert Release(s, p).hist == Note(s.hist, Forwarded(VnfCmd, c, s.store[c].cmd.(source := "unknown")));
    }
  }

  lemma ReplyNotes(s: Sys, p: CmdID, st: CmdState)
    requires p in s.store
    ensures NotesOne(s, ReplyTo(s, p, st))
  {
    assert ReplyTo(s, p, st).hist == Note(s.hist, Replied(p, st, s.store[p].cmd.source));
  }

  lemma ReactNotes(s: Sys, p: CmdID, c: CmdID)
    requires FamilyStored(s.store, p) && c in s.store
    ensures NotesOne(s, React(s, p, c))
  {
    if AllSuccessful(s.store, p) {
      ReplyNotes(s, p, Successful);
    } else if ChildrenIn(s.store, p, Fail) != {} {
      ReplyNotes(s, p, Fail);
    } else if ChildrenIn(s.store, p, Waiting) != {} {
      ReleaseNotes(s, p);
    }
  }

  lemma ReactTold(s: Sys, p: CmdID, c: CmdID)
    requires Told(s) && FamilyStored(s.store, p) && c in s.store
    ensures Told(React(s, p, c))
  {
    ReactNotes(s, p, c);
    if React(s, p, c).hist != s.hist {
      var a: Action :| !a.Answered? && React(s, p, c).hist == Note(s.hist, a);
      NoteTold(s.hist, a);
    }
  }

  lemma NextTold(s: Sys, e: Event)
    requires Told(s)
    ensures Told(Next(s, e))
  {
    match e {
      case Cmd(cmd, uuids) =>
        if |uuids| == 4 { CommandTold(s, cmd, uuids); }
      case Rply(r) =>
        if ReplyReady(s, r) && r.cmdID in s.store && s.store[r.cmdID].cmdReply.None? {
          NoteTold(s.hist, Answered(r.cmdID, r.cmdState));
          ReactTold(Record(s, r), s.store[r.cmdID].parentCmdID.value, r.cmdID);
        }
    }
  }

  /** Who was sent, who answered first and how, and which replies went out is what the log
      of the run says. */
  lemma {:induction false} HistoryIsLog(s: Sys, es: seq<Event>)
    requires Told(s)
    ensures Told(Run(s, es))
    decreases es
  {
    if es != [] {
      NextTold(s, es[0]);
      HistoryIsLog(Next(s, es[0]), es[1..]);
    }
  }

  // ------------------------------------------------------------ exactly one answer

  /** A child of `p` answered that it failed. */
  ghost predicate SomeChildFailed(s: Sys, p: CmdID)
    requires p in s.family
  {
    exists n | n in s.family[p] :: AnswerOf(s.hist, s.family[p][n]) == Some(Fail)
  }

  ghost predicate AllChildrenAnswered(s: Sys, p: CmdID)
    requires p in s.family
  {
    s.family[p] != map[] && forall n | n in s.family[p] :: s.family[p][n] in s.hist.answers
  }

  /** What the requester should have been told by now. */
  ghost function Verdict(s: Sys, p: CmdID): seq<CmdState>
    requires p in s.family
  {
    if SomeChildFailed(s, p) then [Fail]
    else if AllChildrenAnswered(s, p) then [Successful]
    else []
  }

  lemma ViewSees(s: Sys, p: CmdID, v: View)
    requires p in s.family && p in s.accepted && IsView(s, p, v)
    ensures forall n | n in s.family[p] :: Sees(s, v, n, s.family[p][n])
  {
    forall n | n in s.family[p] ensures Sees(s, v, n, s.family[p][n]) {}
  }

  lemma AnswersSeen(s: Sys, p: CmdID, v: View)
    requires p in s.family && p in s.accepted && IsView(s, p, v)
    ensures SomeChildFailed(s, p) <==> SomeFail(v.answers)
    ensures AllChildrenAnswered(s, p) <==> v.names != {} && v.answers.Keys == v.names
  {
    ViewSees(s, p, v);
  }

  lemma SentSeen(s: Sys, p: CmdID, v: View)
    requires p in s.family && p in s.accepted && IsView(s, p, v)
    ensures forall n | n in s.family[p] :: TimesSent(s.hist, s.family[p][n]) == if n in v.sent then v.sent[n] else 0
  {
    ViewSees(s, p, v);
  }

  lemma VerdictSeen(v: View)
    requires FamilyOk(v.names, v)
    ensures !v.stored <==> v.names != {} && v.answers.Keys == v.names
    ensures v.replies ==
      if SomeFail(v.answers) then [Fail] else if v.names != {} && v.answers.Keys == v.names then [Successful] else []
  {
    if v.stored {
      assert SomeFail(v.answers) <==> SomeFail(v.states);
      assert v.names != {} && v.answers.Keys == v.names ==> AllAnswered(v.states) && v.states != map[];
    }
  }

  /** At every moment of every run: the requester of `p` has been told exactly what it
      should, each child was sent at most once, and the family is gone exactly when all its
      children have answered. */
  lemma ExactlyOneAnswer(s: Sys, p: CmdID)
    requires Reachable(s) && p in s.accepted
    ensures p in s.family && RepliesTo(s.hist, p) == Verdict(s, p)
    ensures p !in s.store <==> AllChildrenAnswered(s, p)
    ensures forall n | n in s.family[p] :: TimesSent(s.hist, s.family[p][n]) <= 1
  {
    ReachableInv(s);
    var v := ViewOf(s, p);
    ViewOfIsView(s, p);
    assert FamilyOk(NamesOf(s.server, s.accepted[p]), v);
    AnswersSeen(s, p, v);
    SentSeen(s, p, v);
    VerdictSeen(v);
    SentOnceOrNever(v);
  }

  // ------------------------------------------------------------ when everyone has answered

  /** Nobody who was sent a command is still to answer. */
  ghost predicate Quiet(s: Sys) {
    s.hist.sent.Keys <= s.hist.answers.Keys
  }

  /** The VNF child of `p` waits, and never was sent, because a sibling failed. */
  ghost predicate Stuck(s: Sys, p: CmdID)
    requires p in s.family && p in s.accepted
  {
    && Deferred(s.accepted[p].zone, s.accepted[p].cmdType) && VnfCmd in s.family[p]
    && TimesSent(s.hist, s.family[p][VnfCmd]) == 0
    && SomeChildFailed(s, p)
  }

  ghost predicate StuckView(v: View) {
    Deferred(v.cmd.zone, v.cmd.cmdType) && VnfCmd in v.names && VnfCmd !in v.sent && SomeFail(v.answers)
  }

  lemma StuckSeen(s: Sys, p: CmdID, v: View)
    requires Inv(s) && p in s.family && p in s.accepted && IsView(s, p, v)
    ensures Stuck(s, p) <==> StuckView(v)
    ensures FamilyOk(NamesOf(s.server, v.cmd), v)
  {
    ViewSees(s, p, v);
    assert SomeChildFailed(s, p) <==> SomeFail(v.answers);
    if VnfCmd in s.family[p] { SentOnceOrNever(v); }
  }

  lemma SentOnceOrNever(v: View)
    requires FamilyOk(v.names, v)
    ensures forall n | n in v.sent :: v.sent[n] == 1
  {
  }

  /** A family in which everyone who was sent has answered. */
  lemma QuietView(server: bool, v: View)
    requires FamilyOk(NamesOf(server, v.cmd), v) && v.sent.Keys <= v.answers.Keys
    ensures v.stored <==> v.cmd.zone == UnknownZone || StuckView(v)
  {
    ImmediateShape(server, v.cmd.zone, v.cmd.cmdType);
    var names := Immediate(server, v.cmd.zone, v.cmd.cmdType);
    if v.cmd.zone == UnknownZone {
      assert v.names == {};
    } else if v.stored {
      assert names[0] in v.states;
      var n :| n in v.states && !Determined(v.states[n]);
      assert n == VnfCmd && v.states[n] == Waiting;
      assert SomeFail(v.states);
      var m :| m in v.states && v.states[m] == Fail;
      assert v.answers[m] == Fail;
    }
  }

  /** Once all is quiet, what is left in the store are exactly the families whose VNF child
      is stuck, and commands for a zone nobody serves. */
  lemma QuietStuck(s: Sys, p: CmdID)
    requires Reachable(s) && Quiet(s) && p in s.accepted
    ensures p in s.family
    ensures p in s.store <==> s.accepted[p].zone == UnknownZone || Stuck(s, p)
  {
    ReachableInv(s);
    var v := ViewOf(s, p);
    ViewOfIsView(s, p);
    ViewSees(s, p, v);
    StuckSeen(s, p, v);
    QuietView(s.server, v);
  }

  /** A run without failures, for zones that are served, ends with an empty store, and every
      requester has been told of success, once. */
  lemma FailureFreeEndsEmpty(s: Sys)
    requires Reachable(s) && Quiet(s)
    requires forall c | c in s.hist.answers :: s.hist.answers[c] == Successful
    requires forall p | p in s.accepted :: s.accepted[p].zone != UnknownZone
    ensures s.store == map[]
    ensures forall p | p in s.accepted :: RepliesTo(s.hist, p) == [Successful]
  {
    ReachableInv(s);
    forall p | p in s.accepted ensures p in s.family && p !in s.store && RepliesTo(s.hist, p) == [Successful] {
      QuietStuck(s, p);
      ExactlyOneAnswer(s, p);
    }
    forall id | id in s.place ensures id !in s.store { assert ChildLinked(s, id); }
    forall id ensures id !in s.store { assert id in s.store ==> Known(s, id); }
  }

  // ------------------------------------------------------------ what a step does to a family

  /** The child at `n` is being waited for, and its command ended as `st`. */
  ghost predicate Heard(v: View, n: CmdName, st: CmdState) {
    v.stored && n in v.states && v.states[n] == Processing && Determined(st)
  }

  /** Every step leaves a family alone or lets one of its children be heard. */
  lemma FamilyStep(s: Sys, e: Event, p: CmdID, v: View)
    requires Inv(s) && Legal(s, e) && p in s.family && p in s.accepted && IsView(s, p, v)
    ensures Inv(Next(s, e)) && p in Next(s, e).family && p in Next(s, e).accepted
    ensures IsView(Next(s, e), p, v) || exists n, st :: Heard(v, n, st) && IsView(Next(s, e), p, VHandle(v, n, st))
  {
    NextKeepsInv(s, e);
    match e
    case Cmd(cmd, uuids) => CommandMoves(s, cmd, uuids);
    case Rply(r) =>
      LegalReplyReady(s, r);
      ReplyStep(s, r, p, v);
  }

  lemma ReplyStep(s: Sys, r: CmdReply, p: CmdID, v: View)
    requires Inv(s) && LegalReply(s, r) && ReplyReady(s, r) && p in s.family && p in s.accepted && IsView(s, p, v)
    requires Inv(HandleReply(s, r))
    ensures p in HandleReply(s, r).family && p in HandleReply(s, r).accepted
    ensures IsView(HandleReply(s, r), p, v)
      || exists n, st :: Heard(v, n, st) && IsView(HandleReply(s, r), p, VHandle(v, n, st))
  {
    LegalReplyReady(s, r);
    if r.cmdID in s.store && s.store[r.cmdID].cmdReply.None? {
      var Place(q, n) := s.place[r.cmdID];
      ViewOfIsView(s, q);
      ReplyMovesFamily(s, r, ViewOf(s, q));
      if p == q {
        ViewIsUnique(s, p, v, ViewOf(s, q));
        HeardWhileProcessing(s, r, v);
        assert Heard(v, n, r.cmdState);
      }
    }
  }

  /** A stuck family stays stuck, and stored. */
  lemma StuckNext(s: Sys, e: Event, p: CmdID)
    requires Inv(s) && Legal(s, e) && p in s.family && p in s.accepted && Stuck(s, p)
    ensures var t := Next(s, e); p in t.family && p in t.accepted && Stuck(t, p)
  {
    var v := ViewOf(s, p);
    ViewOfIsView(s, p);
    StuckSeen(s, p, v);
    FamilyStep(s, e, p, v);
    var t := Next(s, e);
    if IsView(t, p, v) {
      StuckSeen(t, p, v);
    } else {
      var n, st :| Heard(v, n, st) && IsView(t, p, VHandle(v, n, st));
      StuckStep(v, n, st);
      StuckSeen(t, p, VHandle(v, n, st));
    }
  }

  /** The command is for a zone nobody serves, or its VNF child is stuck. */
  ghost predicate Doomed(s: Sys, p: CmdID) {
    p in s.family && p in s.accepted && (s.accepted[p].zone == UnknownZone || Stuck(s, p))
  }

  lemma DoomedStored(s: Sys, p: CmdID)
    requires Inv(s) && Doomed(s, p)
    ensures p in s.store
  {
    var v := ViewOf(s, p);
    ViewOfIsView(s, p);
    StuckSeen(s, p, v);
    if Stuck(s, p) {
      StuckStored(v);
    } else {
      ImmediateShape(s.server, v.cmd.zone, v.cmd.cmdType);
      assert v.names == {};
    }
  }

  lemma DoomedNext(s: Sys, e: Event, p: CmdID)
    requires Inv(s) && Legal(s, e) && Doomed(s, p)
    ensures Doomed(Next(s, e), p)
  {
    if Stuck(s, p) {
      StuckNext(s, e, p);
    } else {
      ViewOfIsView(s, p);
      FamilyStep(s, e, p, ViewOf(s, p));
    }
  }

  /** A doomed family is in the store after every run, whatever comes. */
  lemma {:induction false} StuckForever(s: Sys, es: seq<Event>, p: CmdID)
    requires Inv(s) && LegalRun(s, es) && Doomed(s, p)
    ensures Doomed(Run(s, es), p) && p in Run(s, es).store
    decreases es
  {
    if es == [] {
      DoomedStored(s, p);
    } else {
      NextKeepsInv(s, es[0]);
      DoomedNext(s, es[0], p);
      StuckForever(Next(s, es[0]), es[1..], p);
    }
  }

  lemma StuckStored(v: View)
    requires FamilyOk(v.names, v) && StuckView(v)
    ensures v.stored && v.states[VnfCmd] == Waiting && SomeFail(v.states)
  {
    var m :| m in v.answers && v.answers[m] == Fail;
    assert v.stored ==> v.states[m] == Fail;
  }

  lemma StuckStep(v: View, n: CmdName, st: CmdState)
    requires FamilyOk(v.names, v) && StuckView(v) && Heard(v, n, st)
    ensures StuckView(VHandle(v, n, st)) && VHandle(v, n, st).stored
  {
    StuckStored(v);
    FirstFailure(v, n, st);
    var w := VAnswer(v, n, st);
    var m :| m in v.states && v.states[m] == Fail;
    assert w.states[VnfCmd] == Waiting;
    assert VReact(w, n).states == w.states;
    assert w.answers[m] == Fail;
  }

  lemma VnfRuleSeen(server: bool, v: View)
    requires FamilyOk(NamesOf(server, v.cmd), v) && Deferred(v.cmd.zone, v.cmd.cmdType)
    ensures SffCmd in v.names && VnfCmd in v.names
    ensures VnfCmd in v.sent ==> v.sent[VnfCmd] == 1 && SffCmd in v.answers && v.answers[SffCmd] == Successful
    ensures SffCmd in v.answers && v.answers[SffCmd] == Successful && !SomeFail(v.answers) ==> VnfCmd in v.sent
  {
    ImmediateShape(server, v.cmd.zone, v.cmd.cmdType);
    if SomeFail(v.states) {
      var m :| m in v.states && v.states[m] == Fail;
      assert v.stored ==> v.answers[m] == Fail;
    }
  }

  /** The rule for the VNFs of a new chain instance, at every moment of every run: they have
      been sent only if the forwarders reported success, and they have been if, besides,
      nobody failed. */
  lemma VnfRule(s: Sys, p: CmdID)
    requires Reachable(s) && p in s.accepted && Deferred(s.accepted[p].zone, s.accepted[p].cmdType)
    ensures p in s.family && SffCmd in s.family[p] && VnfCmd in s.family[p]
    ensures TimesSent(s.hist, s.family[p][VnfCmd]) > 0 ==> AnswerOf(s.hist, s.family[p][SffCmd]) == Some(Successful)
    ensures AnswerOf(s.hist, s.family[p][SffCmd]) == Some(Successful) && !SomeChildFailed(s, p) ==>
      TimesSent(s.hist, s.family[p][VnfCmd]) == 1
  {
    ReachableInv(s);
    var v := ViewOf(s, p);
    ViewOfIsView(s, p);
    ViewSees(s, p, v);
    StuckSeen(s, p, v);
    VnfRuleSeen(s.server, v);
  }

  /** The step that sends them: nobody in the family has failed by then. */
  lemma VnfReleasedWithoutFailure(s: Sys, e: Event, p: CmdID)
    requires Inv(s) && Legal(s, e) && p in s.family && p in s.accepted && VnfCmd in s.family[p]
    requires Deferred(s.accepted[p].zone, s.accepted[p].cmdType)
    requires p in Next(s, e).family && VnfCmd in Next(s, e).family[p]
    requires TimesSent(s.hist, s.family[p][VnfCmd]) == 0
    requires TimesSent(Next(s, e).hist, Next(s, e).family[p][VnfCmd]) > 0
    ensures e.Rply? && !SomeChildFailed(Next(s, e), p)
  {
    var v, t := ViewOf(s, p), Next(s, e);
    ViewOfIsView(s, p);
    SentSeen(s, p, v);
    StuckSeen(s, p, v);
    SentOnceOrNever(v);
    FamilyStep(s, e, p, v);
    if IsView(t, p, v) {
      SentSeen(t, p, v);
    } else {
      var n, st :| Heard(v, n, st) && IsView(t, p, VHandle(v, n, st));
      ReleaseWithoutFailure(v, n, st);
      SentSeen(t, p, VHandle(v, n, st));
      AnswersSeen(t, p, VHandle(v, n, st));
    }
    if e.Cmd? { CommandMoves(s, e.cmd, e.uuids); }
  }

  lemma ReleaseWithoutFailure(v: View, n: CmdName, st: CmdState)
    requires FamilyOk(v.names, v) && Heard(v, n, st) && VnfCmd !in v.sent
    ensures VnfCmd in VHandle(v, n, st).sent ==> !SomeFail(VHandle(v, n, st).answers)
  {
    var w := VAnswer(v, n, st);
    FirstFailure(v, n, st);
    FailureKnown(v, n, st);
    ReactAnswers(w, n);
  }

  lemma FailureKnown(v: View, n: CmdName, st: CmdState)
    requires FamilyOk(v.names, v) && Heard(v, n, st)
    ensures var w := VAnswer(v, n, st); SomeFail(w.answers) ==> SomeFail(w.states)
  {
    var w := VAnswer(v, n, st);
    if SomeFail(w.answers) {
      var m :| m in w.answers && w.answers[m] == Fail;
      assert w.states[m] == Fail;
    }
  }

  /** Reacting hears nothing, and sends nothing once a failure is known. */
  lemma ReactAnswers(w: View, n: CmdName)
    ensures VCleanUp(VReact(w, n)).answers == w.answers
    ensures FailNames(w) != {} ==> VCleanUp(VReact(w, n)).sent == w.sent
  {
  }
}
