/** Which additions never leave the mediator's store: the order of the replies decides. */
module MediatorOrder {
  import opened Tries
  import opened MediatorModel
  import opened MediatorInvariant
  import opened MediatorSteps
  import opened MediatorRuns
  import opened MediatorTheorems

  // ------------------------------------------------------------ replies in the log

  type Log = seq<Action>

  predicate HeardAt(log: Log, c: CmdID, i: nat) {
    i < |log| && log[i].Answered? && log[i].cmd == c
  }

  predicate FailedAt(log: Log, kids: set<CmdID>, j: nat) {
    j < |log| && log[j].Answered? && log[j].cmd in kids && log[j].state == Fail
  }

  /** One of `kids` failed before `c` reported success, or `c` never did. */
  ghost predicate FailedEarly(log: Log, kids: set<CmdID>, c: CmdID) {
    exists j: nat :: FailedAt(log, kids, j) && Answered(c, Successful) !in log[..j]
  }

  /** The first reply of `c` stands at `i`. */
  ghost predicate FirstHeard(log: Log, c: CmdID, i: nat) {
    HeardAt(log, c, i) && forall k | 0 <= k < i :: !HeardAt(log, c, k)
  }

  /** One of `kids` failed no later than `c` replied first. */
  ghost predicate FailedNoLater(log: Log, kids: set<CmdID>, c: CmdID) {
    exists i: nat, j: nat :: j <= i && FirstHeard(log, c, i) && FailedAt(log, kids, j)
  }

  /** The log grew by something, but not by a reply. */
  ghost predicate Quietly(h: History, g: History) {
    && h.log <= g.log && g.answers == h.answers
    && forall i | |h.log| <= i < |g.log| :: !g.log[i].Answered?
  }

  /** The log has one reply of each child that answered: its answer. */
  ghost predicate Once(h: History) {
    && (forall i | 0 <= i < |h.log| && h.log[i].Answered? ::
          h.log[i].cmd in h.answers && h.answers[h.log[i].cmd] == h.log[i].state)
    && forall c | c in h.answers :: Answered(c, h.answers[c]) in h.log
  }

  lemma QuietlyOnce(h: History, g: History)
    requires Once(h) && Quietly(h, g)
    ensures Once(g)
  {
    forall i | 0 <= i < |g.log| && g.log[i].Answered?
      ensures g.log[i].cmd in g.answers && g.answers[g.log[i].cmd] == g.log[i].state
    {
      assert g.log[i] == h.log[i];
    }
    forall c | c in g.answers ensures Answered(c, g.answers[c]) in g.log {
      var i :| 0 <= i < |h.log| && h.log[i] == Answered(c, h.answers[c]);
      assert g.log[i] == h.log[i];
    }
  }

  lemma AnswerOnce(h: History, c: CmdID, st: CmdState)
    requires Once(h) && c !in h.answers
    ensures Once(Note(h, Answered(c, st)))
  {
    var g := Note(h, Answered(c, st));
    forall d | d in g.answers ensures Answered(d, g.answers[d]) in g.log {
      if d != c { assert Answered(d, h.answers[d]) in h.log; }
    }
  }

  lemma QuietlyEarly(h: History, g: History, kids: set<CmdID>, c: CmdID)
    requires Quietly(h, g)
    ensures FailedEarly(g.log, kids, c) <==> FailedEarly(h.log, kids, c)
  {
    if FailedEarly(h.log, kids, c) {
      var j: nat :| FailedAt(h.log, kids, j) && Answered(c, Successful) !in h.log[..j];
      assert g.log[..j] == h.log[..j] && FailedAt(g.log, kids, j);
    }
    if FailedEarly(g.log, kids, c) {
      var j: nat :| FailedAt(g.log, kids, j) && Answered(c, Successful) !in g.log[..j];
      assert g.log[..j] == h.log[..j] && FailedAt(h.log, kids, j);
    }
  }

  lemma AnswerEarly(log: Log, x: CmdID, st: CmdState, kids: set<CmdID>, c: CmdID)
    ensures FailedEarly(log + [Answered(x, st)], kids, c) <==>
      FailedEarly(log, kids, c) || (x in kids && st == Fail && Answered(c, Successful) !in log)
  {
    var more, n := log + [Answered(x, st)], |log|;
    assert more[..n] == log;
    assert forall j | 0 <= j < n :: more[..j] == log[..j];
    if FailedEarly(log, kids, c) {
      var j: nat :| FailedAt(log, kids, j) && Answered(c, Successful) !in log[..j];
      assert FailedAt(more, kids, j) && more[..j] == log[..j];
    }
    if x in kids && st == Fail && Answered(c, Successful) !in log {
      assert FailedAt(more, kids, n);
    }
    if FailedEarly(more, kids, c) {
      var j: nat :| FailedAt(more, kids, j) && Answered(c, Successful) !in more[..j];
      if j < n { assert FailedAt(log, kids, j) && more[..j] == log[..j]; }
    }
  }

  // ------------------------------------------------------------ what a step adds to the log

  lemma ForwardQuietly(s: Sys, p: CmdID, n: CmdName, c: CmdID)
    requires p in s.store && p in s.family
    ensures var t := Forward(Prepare(s, p, n, c), p, n, c);
      && Quietly(s.hist, t.hist) && t.family.Keys == s.family.Keys
      && forall q | q in s.family && q != p :: t.family[q] == s.family[q]
  {
    var t := Prepare(s, p, n, c);
    assert Forward(t, p, n, c).hist == Note(s.hist, Forwarded(n, c, t.store[c].cmd));
  }

  lemma QuietlyTrans(f: History, g: History, h: History)
    requires Quietly(f, g) && Quietly(g, h)
    ensures Quietly(f, h)
  {
    forall i | |f.log| <= i < |h.log| ensures !h.log[i].Answered? {
      assert i < |g.log| ==> h.log[i] == g.log[i];
    }
  }

  lemma {:induction false} ForwardAllQuietly(s: Sys, p: CmdID, names: seq<CmdName>, uuids: seq<CmdID>)
    requires p in s.store && p in s.family && |names| <= |uuids|
    ensures var t := ForwardAll(s, p, names, uuids);
      Quietly(s.hist, t.hist) && forall q | q in s.family && q != p :: q in t.family && t.family[q] == s.family[q]
  {
    if names != [] {
      var n := |names| - 1;
      var t := ForwardAll(s, p, names[..n], uuids);
      ForwardAllQuietly(s, p, names[..n], uuids);
      ForwardQuietly(t, p, names[n], uuids[n]);
      QuietlyTrans(s.hist, t.hist, ForwardAll(s, p, names, uuids).hist);
    }
  }

  lemma CommandQuietly(s: Sys, cmd: Command, uuids: seq<CmdID>)
    requires |uuids| == 4
    ensures var t := HandleCommand(s, cmd, uuids);
      && Quietly(s.hist, t.hist)
      && forall q | q in s.family && q != cmd.cmdID :: q in t.family && t.family[q] == s.family[q]
  {
    ForwardAllQuietly(Start(s, cmd), cmd.cmdID, Immediate(s.server, cmd.zone, cmd.cmdType), uuids);
  }

  lemma ReactQuietly(s: Sys, p: CmdID, c: CmdID)
    requires FamilyStored(s.store, p) && c in s.store
    ensures Quietly(s.hist, React(s, p, c).hist)
    ensures React(s, p, c).family == s.family && React(s, p, c).accepted == s.accepted
  {
    ReactNotes(s, p, c);
  }

  /** A reply is heard: it is the first one of a child that is stored. */
  ghost predicate HearsFirst(s: Sys, r: CmdReply) {
    r.cmdID in s.store && s.store[r.cmdID].cmdReply.None?
  }

  lemma ReplyQuietly(s: Sys, r: CmdReply)
    requires Linked(s) && LegalReply(s, r) && ReplyReady(s, r)
    ensures HandleReply(s, r).family == s.family && HandleReply(s, r).accepted == s.accepted
    ensures !HearsFirst(s, r) ==> HandleReply(s, r) == s
    ensures HearsFirst(s, r) ==>
      r.cmdID !in s.hist.answers && Quietly(Note(s.hist, Answered(r.cmdID, r.cmdState)), HandleReply(s, r).hist)
  {
    LegalReplyReady(s, r);
    if HearsFirst(s, r) {
      ReactQuietly(Record(s, r), s.store[r.cmdID].parentCmdID.value, r.cmdID);
    }
  }

  // ------------------------------------------------------------ the order of the replies

  function Kids(s: Sys, p: CmdID): set<CmdID>
    requires p in s.family
  {
    s.family[p].Values
  }

  ghost predicate IsAddition(s: Sys, p: CmdID) {
    p in s.family && p in s.accepted && Deferred(s.accepted[p].zone, s.accepted[p].cmdType)
  }

  /** The family of an addition is stuck exactly if a child failed before the forwarders
      reported success. */
  ghost predicate OrderDecides(s: Sys, p: CmdID)
    requires IsAddition(s, p)
  {
    SffCmd in s.family[p] && (Stuck(s, p) <==> FailedEarly(s.hist.log, Kids(s, p), s.family[p][SffCmd]))
  }

  ghost predicate Ordered(s: Sys) {
    Inv(s) && Once(s.hist) && forall p | IsAddition(s, p) :: OrderDecides(s, p)
  }

  /** An answer that is no failure leaves a family that is not stuck so. */
  lemma NotStuckBySuccess(v: View, n: CmdName, st: CmdState)
    requires FamilyOk(v.names, v) && Heard(v, n, st) && !StuckView(v) && st != Fail
    ensures !StuckView(VHandle(v, n, st))
  {
    var a := VAnswer(v, n, st);
    ReactAnswers(a, n);
    HandledShape(v, n, st);
    if SomeFail(VHandle(v, n, st).answers) {
      var m :| m in a.answers && a.answers[m] == Fail;
      assert m in v.answers && v.answers[m] == Fail;
    }
  }

  lemma ForwardShape(v: View, n: CmdName)
    ensures VForward(v, n).names == v.names && v.sent.Keys <= VForward(v, n).sent.Keys
  {
  }

  lemma ReactShape(v: View, n: CmdName)
    ensures VReact(v, n).names == v.names && v.sent.Keys <= VReact(v, n).sent.Keys
  {
    ForwardShape(v, VnfCmd);
  }

  /** Handling an answer keeps the names, and whoever was sent stays sent. */
  lemma HandledShape(v: View, n: CmdName, st: CmdState)
    ensures VHandle(v, n, st).names == v.names && v.sent.Keys <= VHandle(v, n, st).sent.Keys
  {
    ReactShape(VAnswer(v, n, st), n);
  }

  /** A failure makes the family stuck exactly if the VNF child has not been sent. */
  lemma StuckByFailure(v: View, n: CmdName)
    requires FamilyOk(v.names, v) && Heard(v, n, Fail) && Deferred(v.cmd.zone, v.cmd.cmdType) && VnfCmd in v.names
    ensures StuckView(VHandle(v, n, Fail)) <==> VnfCmd !in v.sent
  {
    var a := VAnswer(v, n, Fail);
    FirstFailure(v, n, Fail);
    ReactAnswers(a, n);
    HandledShape(v, n, Fail);
    assert a.answers[n] == Fail && a.states[n] == Fail;
    assert n in FailNames(a);
  }

  /** How one more answer makes a family stuck. */
  lemma StuckHeard(server: bool, v: View, n: CmdName, st: CmdState)
    requires FamilyOk(NamesOf(server, v.cmd), v) && Deferred(v.cmd.zone, v.cmd.cmdType) && Heard(v, n, st)
    ensures StuckView(VHandle(v, n, st)) <==>
      StuckView(v) || (st == Fail && !(SffCmd in v.answers && v.answers[SffCmd] == Successful))
  {
    VnfRuleSeen(server, v);
    if StuckView(v) {
      StuckStep(v, n, st);
    } else if st == Fail {
      StuckByFailure(v, n);
    } else {
      NotStuckBySuccess(v, n, st);
    }
  }

  /** A family that looks the same and heard nothing stays as it was. */
  lemma OrderKept(s: Sys, t: Sys, p: CmdID, v: View)
    requires Inv(s) && Inv(t) && IsAddition(s, p) && OrderDecides(s, p)
    requires p in t.family && p in t.accepted && t.family[p] == s.family[p]
    requires IsView(s, p, v) && IsView(t, p, v)
    requires FailedEarly(t.hist.log, Kids(s, p), s.family[p][SffCmd])
      <==> FailedEarly(s.hist.log, Kids(s, p), s.family[p][SffCmd])
    ensures IsAddition(t, p) && OrderDecides(t, p)
  {
    StuckSeen(s, p, v);
    StuckSeen(t, p, v);
  }

  /** Success of the forwarders, in the log and in the view. */
  lemma SffSeen(s: Sys, p: CmdID, v: View)
    requires Once(s.hist) && IsAddition(s, p) && IsView(s, p, v) && SffCmd in s.family[p]
    ensures Answered(s.family[p][SffCmd], Successful) in s.hist.log
      <==> SffCmd in v.answers && v.answers[SffCmd] == Successful
  {
    ViewSees(s, p, v);
    var c := s.family[p][SffCmd];
    if Answered(c, Successful) in s.hist.log {
      var i :| 0 <= i < |s.hist.log| && s.hist.log[i] == Answered(c, Successful);
      assert s.hist.log[i].Answered?;
    }
  }

  /** A child of one family is no child of another. */
  lemma OwnKids(s: Sys, c: CmdID, p: CmdID)
    requires Linked(s) && c in s.place && p in s.family
    ensures c in Kids(s, p) <==> s.place[c].parent == p
  {
    assert ParentLinked(s, p) && ChildLinked(s, c);
  }

  lemma EarlyAfter(h: History, g: History, x: CmdID, st: CmdState, kids: set<CmdID>, c: CmdID)
    requires Quietly(Note(h, Answered(x, st)), g)
    ensures FailedEarly(g.log, kids, c) <==>
      FailedEarly(h.log, kids, c) || (x in kids && st == Fail && Answered(c, Successful) !in h.log)
  {
    AnswerEarly(h.log, x, st, kids, c);
    QuietlyEarly(Note(h, Answered(x, st)), g, kids, c);
  }

  lemma OrderHeardElsewhere(s: Sys, t: Sys, r: CmdReply, p: CmdID, v: View)
    requires Ordered(s) && Inv(t) && IsAddition(s, p) && IsView(s, p, v) && r.cmdID in s.place
    requires s.place[r.cmdID].parent != p && IsView'(t, p, v) && t.family == s.family
    requires Quietly(Note(s.hist, Answered(r.cmdID, r.cmdState)), t.hist)
    ensures IsAddition(t, p) && OrderDecides(t, p)
  {
    OwnKids(s, r.cmdID, p);
    EarlyAfter(s.hist, t.hist, r.cmdID, r.cmdState, Kids(s, p), s.family[p][SffCmd]);
    OrderKept(s, t, p, v);
  }

  /** A view of an accepted command. */
  ghost predicate IsView'(t: Sys, p: CmdID, v: View) {
    p in t.family && p in t.accepted && IsView(t, p, v)
  }

  lemma OrderHeard(s: Sys, t: Sys, r: CmdReply, p: CmdID, n: CmdName, v: View)
    requires Ordered(s) && Inv(t) && IsAddition(s, p) && IsView(s, p, v) && r.cmdID in s.place
    requires s.place[r.cmdID].parent == p && Heard(v, n, r.cmdState)
    requires IsView'(t, p, VHandle(v, n, r.cmdState)) && t.family == s.family
    requires Quietly(Note(s.hist, Answered(r.cmdID, r.cmdState)), t.hist)
    ensures IsAddition(t, p) && OrderDecides(t, p)
  {
    OwnKids(s, r.cmdID, p);
    EarlyAfter(s.hist, t.hist, r.cmdID, r.cmdState, Kids(s, p), s.family[p][SffCmd]);
    StuckSeen(s, p, v);
    StuckSeen(t, p, VHandle(v, n, r.cmdState));
    StuckHeard(s.server, v, n, r.cmdState);
    SffSeen(s, p, v);
  }

  lemma ReplyOrdered(s: Sys, r: CmdReply)
    requires Ordered(s) && LegalReply(s, r)
    ensures ReplyReady(s, r) && Ordered(HandleReply(s, r))
  {
    ReplyKeepsInv(s, r);
    var t := HandleReply(s, r);
    ReplyQuietly(s, r);
    if HearsFirst(s, r) {
      AnswerOnce(s.hist, r.cmdID, r.cmdState);
      QuietlyOnce(Note(s.hist, Answered(r.cmdID, r.cmdState)), t.hist);
      forall p | IsAddition(t, p) ensures OrderDecides(t, p) { ReplyOrderedAt(s, r, p); }
    }
  }

  lemma ReplyOrderedAt(s: Sys, r: CmdReply, p: CmdID)
    requires Ordered(s) && LegalReply(s, r) && ReplyReady(s, r) && HearsFirst(s, r)
    requires Inv(HandleReply(s, r)) && HandleReply(s, r).family == s.family
    requires Quietly(Note(s.hist, Answered(r.cmdID, r.cmdState)), HandleReply(s, r).hist)
    requires IsAddition(HandleReply(s, r), p)
    ensures OrderDecides(HandleReply(s, r), p)
  {
    var t := HandleReply(s, r);
    LegalReplyReady(s, r);
    var Place(q, n) := s.place[r.cmdID];
    ViewOfIsView(s, q);
    HeardWhileProcessing(s, r, ViewOf(s, q));
    ReplyMovesFamily(s, r, ViewOf(s, q));
    ViewOfIsView(s, p);
    assert t.accepted[p] == ViewOf(s, p).cmd by {
      if p == q { assert IsView(t, q, VHandle(ViewOf(s, q), n, r.cmdState)); } else { assert IsView(t, p, ViewOf(s, p)); }
    }
    if p == q {
      OrderHeard(s, t, r, p, n, ViewOf(s, p));
    } else {
      OrderHeardElsewhere(s, t, r, p, ViewOf(s, p));
    }
  }

  lemma CommandOrdered(s: Sys, cmd: Command, uuids: seq<CmdID>)
    requires Ordered(s) && FreshIds(s, cmd.cmdID, uuids)
    ensures Ordered(HandleCommand(s, cmd, uuids))
  {
    var t := HandleCommand(s, cmd, uuids);
    CommandKeepsInv(s, cmd, uuids);
    CommandMoves(s, cmd, uuids);
    CommandQuietly(s, cmd, uuids);
    QuietlyOnce(s.hist, t.hist);
    forall p | IsAddition(t, p) ensures OrderDecides(t, p) { CommandOrderedAt(s, cmd, t, p); }
  }

  lemma CommandOrderedAt(s: Sys, cmd: Command, t: Sys, p: CmdID)
    requires Ordered(s) && Inv(t) && Once(t.hist) && Quietly(s.hist, t.hist) && IsAddition(t, p)
    requires Moves(s, t, cmd.cmdID, FirstView(s.server, cmd))
    requires forall q | q in s.family && q != cmd.cmdID :: q in t.family && t.family[q] == s.family[q]
    ensures OrderDecides(t, p)
  {
    if p == cmd.cmdID {
      NewFamilyOrdered(s, cmd, t);
    } else {
      MovedElsewhere(s, t, cmd.cmdID, p, FirstView(s.server, cmd));
      OldFamilyOrdered(s, t, p, ViewOf(s, p));
    }
  }

  /** A step that moves one family leaves the look of any other. */
  lemma MovedElsewhere(s: Sys, t: Sys, p: CmdID, q: CmdID, v: View)
    requires Linked(s) && Moves(s, t, p, v) && q in t.family && q in t.accepted && q != p
    ensures q in s.family && q in s.accepted && t.accepted[q] == s.accepted[q]
    ensures IsView(s, q, ViewOf(s, q)) && IsView(t, q, ViewOf(s, q))
  {
    assert ParentLinked(s, q);
    ViewOfIsView(s, q);
    assert IsView(t, q, ViewOf(s, q));
  }

  /** A command changes nothing for the families there are. */
  lemma OldFamilyOrdered(s: Sys, t: Sys, p: CmdID, v: View)
    requires Ordered(s) && Inv(t) && Quietly(s.hist, t.hist) && IsAddition(t, p)
    requires p in s.family && p in s.accepted && t.accepted[p] == s.accepted[p] && t.family[p] == s.family[p]
    requires IsView(s, p, v) && IsView(t, p, v)
    ensures OrderDecides(t, p)
  {
    assert IsAddition(s, p) && OrderDecides(s, p);
    QuietlyEarly(s.hist, t.hist, Kids(s, p), s.family[p][SffCmd]);
    OrderKept(s, t, p, v);
  }

  /** Of a new family nobody has been heard. */
  lemma NewFamilyOrdered(s: Sys, cmd: Command, t: Sys)
    requires Inv(t) && Once(t.hist) && IsAddition(t, cmd.cmdID)
    requires IsView(t, cmd.cmdID, FirstView(s.server, cmd))
    ensures OrderDecides(t, cmd.cmdID)
  {
    var p, v := cmd.cmdID, FirstView(s.server, cmd);
    StuckSeen(t, p, v);
    ViewSees(t, p, v);
    ImmediateShape(s.server, cmd.zone, cmd.cmdType);
    assert v.answers == map[];
    assert forall n | n in t.family[p] :: t.family[p][n] !in t.hist.answers;
    assert forall j: nat :: !FailedAt(t.hist.log, Kids(t, p), j);
  }

  lemma {:induction false} RunOrdered(s: Sys, es: seq<Event>)
    requires Ordered(s) && LegalRun(s, es)
    ensures Ordered(Run(s, es))
    decreases es
  {
    if es != [] {
      match es[0] {
        case Cmd(cmd, uuids) => CommandOrdered(s, cmd, uuids);
        case Rply(r) => ReplyOrdered(s, r);
      }
      RunOrdered(Next(s, es[0]), es[1..]);
    }
  }

  /** After every run the family of an addition is stuck exactly if one of its children
      failed before its forwarders reported success. */
  lemma StuckIffFailedEarly(s: Sys, p: CmdID)
    requires Reachable(s) && IsAddition(s, p)
    ensures SffCmd in s.family[p]
    ensures Stuck(s, p) <==> FailedEarly(s.hist.log, Kids(s, p), s.family[p][SffCmd])
  {
    ReachableOrdered(s);
    assert OrderDecides(s, p);
  }

  lemma InitialOrdered(server: bool)
    ensures Ordered(Initial(server))
  {
  }

  lemma ReachableOrdered(s: Sys)
    requires Reachable(s)
    ensures Ordered(s)
  {
    var server, es :| LegalRun(Initial(server), es) && s == Run(Initial(server), es);
    InitialOrdered(server);
    RunOrdered(Initial(server), es);
  }

  // ------------------------------------------------------------ what is left when all is quiet

  lemma FindFirst(h: History, c: CmdID) returns (i: nat)
    requires Once(h) && c in h.answers
    ensures FirstHeard(h.log, c, i)
    ensures h.log[i] == Answered(c, h.answers[c])
  {
    i := 0;
    while !HeardAt(h.log, c, i)
      invariant i < |h.log| && forall k | 0 <= k < i :: !HeardAt(h.log, c, k)
      invariant Answered(c, h.answers[c]) in h.log[i..]
      decreases |h.log| - i
    {
      i := i + 1;
    }
  }

  /** Of someone who replied, the first reply and any success: the two ways to say early. */
  lemma EarlyIsNoLater(h: History, kids: set<CmdID>, c: CmdID)
    requires Once(h) && c in h.answers && Determined(h.answers[c]) && c in kids
    ensures FailedEarly(h.log, kids, c) <==> FailedNoLater(h.log, kids, c)
  {
    var i := FindFirst(h, c);
    if FailedEarly(h.log, kids, c) {
      var j: nat :| FailedAt(h.log, kids, j) && Answered(c, Successful) !in h.log[..j];
      assert i < j ==> h.log[..j][i] == h.log[i];
      assert FailedAt(h.log, kids, if i < j then i else j);
    }
    if FailedNoLater(h.log, kids, c) {
      var k: nat, j: nat :| j <= k && FirstHeard(h.log, c, k) && FailedAt(h.log, kids, j);
      if Answered(c, Successful) in h.log[..j] {
        var m :| 0 <= m < j && h.log[..j][m] == Answered(c, Successful);
        assert HeardAt(h.log, c, m);
      }
    }
  }

  /** In a quiet state the forwarders of an addition have replied. */
  lemma QuietSff(s: Sys, p: CmdID)
    requires Inv(s) && Quiet(s) && IsAddition(s, p)
    ensures SffCmd in s.family[p] && s.family[p][SffCmd] in s.hist.answers
    ensures Determined(s.hist.answers[s.family[p][SffCmd]])
  {
    var v := ViewOf(s, p);
    ViewOfIsView(s, p);
    StuckSeen(s, p, v);
    ViewSees(s, p, v);
    ImmediateShape(s.server, v.cmd.zone, v.cmd.cmdType);
    assert v.stored ==> v.states[SffCmd] != Waiting;
  }

  /** Once all is quiet, what is left in the store are exactly the commands for a zone nobody
      serves, and the additions one of whose children failed no later than the forwarders
      replied first. */
  lemma QuietLeftovers(s: Sys, p: CmdID)
    requires Reachable(s) && Quiet(s) && p in s.accepted
    ensures p in s.family
    ensures p in s.store <==>
      || s.accepted[p].zone == UnknownZone
      || (IsAddition(s, p) && SffCmd in s.family[p]
          && FailedNoLater(s.hist.log, Kids(s, p), s.family[p][SffCmd]))
  {
    QuietStuck(s, p);
    if IsAddition(s, p) {
      ReachableOrdered(s);
      QuietSff(s, p);
      StuckIffFailedEarly(s, p);
      EarlyIsNoLater(s.hist, Kids(s, p), s.family[p][SffCmd]);
    }
  }
}
