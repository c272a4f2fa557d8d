/** What every step of the mediator keeps: the shape of the store, and for each accepted
    command a small family state that moves on its own. */
module MediatorInvariant {
  import opened Tries
  import opened MediatorModel

  // ------------------------------------------------------------ the shape of the store

  ghost predicate Known(s: Sys, id: CmdID) {
    id in s.family || id in s.place
  }

  /** The children of `p` know their place, and while it is stored its record lists them. */
  ghost predicate ParentLinked(s: Sys, p: CmdID)
    requires p in s.family
  {
    && p in s.accepted && p !in s.place
    && (forall n | n in s.family[p] :: s.family[p][n] in s.place && s.place[s.family[p][n]] == Place(p, n))
    && (p in s.store ==>
          s.store[p].childCmdID == s.family[p] && s.store[p].parentCmdID.None?
          && s.store[p].cmdReply.None? && s.store[p].cmd == s.accepted[p])
  }

  /** A child is where its place says; it is stored exactly as long as its parent, points
      back at it, and holds a reply exactly when one was heard. */
  ghost predicate ChildLinked(s: Sys, c: CmdID)
    requires c in s.place
  {
    var Place(p, n) := s.place[c];
    && p in s.family && n in s.family[p] && s.family[p][n] == c
    && (c in s.store <==> p in s.store)
    && (c in s.store ==>
          s.store[c].parentCmdID == Some(p) && (s.store[c].cmdReply.Some? <==> c in s.hist.answers))
  }

  ghost predicate Linked(s: Sys) {
    && s.accepted.Keys == s.family.Keys
    && (forall p {:trigger ParentLinked(s, p)} | p in s.family :: ParentLinked(s, p))
    && (forall c {:trigger ChildLinked(s, c)} | c in s.place :: ChildLinked(s, c))
    && (forall id {:trigger Known(s, id)} | id in s.store :: Known(s, id))
    && s.hist.answers.Keys <= s.place.Keys && s.hist.sent.Keys <= s.place.Keys
    && s.hist.replies.Keys <= s.family.Keys
  }

  // ------------------------------------------------------------ one family at a time

  /** All there is to know about one accepted command. */
  datatype View = View(
    cmd: Command, stored: bool, names: set<CmdName>, states: map<CmdName, CmdState>,
    answers: map<CmdName, CmdState>, sent: map<CmdName, nat>, replies: seq<CmdState>)

  /** `v` tells the truth about one child. */
  ghost predicate Sees(s: Sys, v: View, n: CmdName, c: CmdID) {
    && (n in v.states <==> c in s.store) && (n in v.states ==> v.states[n] == s.store[c].state)
    && (n in v.answers <==> c in s.hist.answers) && (n in v.answers ==> v.answers[n] == s.hist.answers[c])
    && (n in v.sent <==> c in s.hist.sent) && (n in v.sent ==> v.sent[n] == s.hist.sent[c])
  }

  /** `v` is what there is to know about `p`. */
  ghost predicate IsView(s: Sys, p: CmdID, v: View)
    requires p in s.family && p in s.accepted
  {
    && v.cmd == s.accepted[p] && v.stored == (p in s.store) && v.names == s.family[p].Keys
    && v.states.Keys <= v.names && v.answers.Keys <= v.names && v.sent.Keys <= v.names
    && v.replies == RepliesTo(s.hist, p)
    && forall n {:trigger Sees(s, v, n, s.family[p][n])} | n in s.family[p] :: Sees(s, v, n, s.family[p][n])
  }

  ghost function ViewOf(s: Sys, p: CmdID): View
    requires p in s.family && p in s.accepted
  {
    var f := s.family[p];
    View(
      s.accepted[p], p in s.store, f.Keys,
      map n | n in f && f[n] in s.store :: s.store[f[n]].state,
      map n | n in f && f[n] in s.hist.answers :: s.hist.answers[f[n]],
      map n | n in f && f[n] in s.hist.sent :: s.hist.sent[f[n]],
      RepliesTo(s.hist, p))
  }

  lemma ViewOfIsView(s: Sys, p: CmdID)
    requires p in s.family && p in s.accepted
    ensures IsView(s, p, ViewOf(s, p))
  {
  }

  lemma ViewIsUnique(s: Sys, p: CmdID, v: View, w: View)
    requires p in s.family && p in s.accepted && IsView(s, p, v) && IsView(s, p, w)
    ensures v == w
  {
    forall n | n in s.family[p] ensures Sees(s, v, n, s.family[p][n]) && Sees(s, w, n, s.family[p][n]) {}
    assert v.states == w.states && v.answers == w.answers && v.sent == w.sent;
  }

  function NamesOf(server: bool, cmd: Command): set<CmdName> {
    (set n | n in Immediate(server, cmd.zone, cmd.cmdType))
    + if Deferred(cmd.zone, cmd.cmdType) then {VnfCmd} else {}
  }

  predicate Determined(st: CmdState) {
    st == Successful || st == Fail
  }

  predicate SomeFail(states: map<CmdName, CmdState>) {
    exists n | n in states :: states[n] == Fail
  }

  /** Who has been sent and who has answered. */
  ghost predicate ChildrenOk(v: View) {
    && v.states.Keys == v.names && v.answers.Keys <= v.names && v.sent.Keys <= v.names
    && forall n | n in v.states ::
         match v.states[n]
         case Waiting => n == VnfCmd && Deferred(v.cmd.zone, v.cmd.cmdType) && n !in v.answers && n !in v.sent
         case Processing => n !in v.answers && n in v.sent && v.sent[n] == 1
         case _ => n in v.answers && v.answers[n] == v.states[n] && n in v.sent && v.sent[n] == 1
  }

  /** The VNF child is not kept waiting once the forwarders are set up, unless a sibling
      has failed. */
  ghost predicate VnfNotHeldBack(v: View) {
    VnfCmd in v.states && v.states[VnfCmd] == Waiting && !SomeFail(v.states) ==>
      SffCmd in v.states && v.states[SffCmd] != Successful
  }

  /** A VNF child that has to wait is sent only after the forwarders reported success. */
  ghost predicate VnfAfterSff(v: View) {
    Deferred(v.cmd.zone, v.cmd.cmdType) && VnfCmd in v.sent ==>
      SffCmd in v.answers && v.answers[SffCmd] == Successful
  }

  predicate AllAnswered(states: map<CmdName, CmdState>) {
    forall n | n in states :: Determined(states[n])
  }

  /** While the family is stored, a failure has been reported exactly if there is one. */
  ghost predicate LiveOk(v: View) {
    && ChildrenOk(v) && VnfNotHeldBack(v)
    && v.replies == (if SomeFail(v.states) then [Fail] else [])
    && (v.states != map[] ==> !AllAnswered(v.states))
  }

  /** Once it is deleted: everyone was sent once and answered, and one reply went out. */
  ghost predicate DoneOk(v: View) {
    && v.states == map[] && v.answers.Keys == v.sent.Keys == v.names != {}
    && (forall n | n in v.answers :: Determined(v.answers[n]) && v.sent[n] == 1)
    && v.replies == [if SomeFail(v.answers) then Fail else Successful]
  }

  ghost predicate FamilyOk(names: set<CmdName>, v: View) {
    && v.names == names && VnfAfterSff(v)
    && if v.stored then LiveOk(v) else DoneOk(v)
  }

  ghost predicate Inv(s: Sys) {
    Linked(s) && forall p, v | p in s.family && IsView(s, p, v) :: FamilyOk(NamesOf(s.server, s.accepted[p]), v)
  }

  // ------------------------------------------------------------ steps seen on a family

  function VPrepare(v: View, n: CmdName): View {
    v.(names := v.names + {n}, states := v.states[n := Waiting])
  }

  function VSend(v: View, n: CmdName): View {
    v.(sent := v.sent[n := if n in v.sent then v.sent[n] + 1 else 1])
  }

  function VForward(v: View, n: CmdName): View {
    VSend(v.(states := v.states[n := Processing]), n)
  }

  function VAnswer(v: View, n: CmdName, st: CmdState): View {
    v.(states := v.states[n := st], answers := v.answers[n := st])
  }

  function VReply(v: View, st: CmdState): View {
    v.(replies := v.replies + [st])
  }

  function FailNames(v: View): set<CmdName> {
    set n | n in v.states && v.states[n] == Fail
  }

  function VReact(v: View, n: CmdName): (w: View)
    ensures w.cmd == v.cmd
  {
    if forall m | m in v.states :: v.states[m] == Successful then VReply(v, Successful)
    else if FailNames(v) != {} then
      if |FailNames(v)| == 1 && n in v.states && v.states[n] == Fail then VReply(v, Fail) else v
    else if v.cmd.cmdType == AddSfci && SffCmd in v.states && VnfCmd in v.states
            && v.states[SffCmd] == Successful && v.states[VnfCmd] == Waiting then VForward(v, VnfCmd)
    else v
  }

  function VCleanUp(v: View): (w: View)
    ensures w.cmd == v.cmd
  {
    if AllAnswered(v.states) then v.(stored := false, states := map[]) else v
  }

  /** All that an answer to child `n` sets off in its family. */
  function VHandle(v: View, n: CmdName, st: CmdState): (w: View)
    ensures w.cmd == v.cmd
  {
    VCleanUp(VReact(VAnswer(v, n, st), n))
  }

  /** Cleaning up a family that has been answered as it should be. */
  lemma CleanUpKeepsFamily(names: set<CmdName>, v: View)
    requires ReadyToClean(v) && v.names == names
    ensures FamilyOk(names, VCleanUp(v))
  {
    if AllAnswered(v.states) {
      assert exists n :: n in v.states;
      assert v.answers == v.states;
    }
  }

  /** One more failure is the first exactly when it is the only one. */
  lemma FirstFailure(v: View, n: CmdName, st: CmdState)
    requires n in v.states && v.states[n] == Processing && Determined(st)
    ensures var w := VAnswer(v, n, st);
      && (SomeFail(w.states) <==> SomeFail(v.states) || st == Fail)
      && (SomeFail(v.states) <==> FailNames(v) != {})
      && (SomeFail(w.states) <==> FailNames(w) != {})
      && (st == Fail ==> (|FailNames(w)| == 1 <==> !SomeFail(v.states)))
  {
    var w := VAnswer(v, n, st);
    assert FailNames(w) == FailNames(v) + if st == Fail then {n} else {};
    if SomeFail(v.states) {
      var m :| m in v.states && v.states[m] == Fail;
      assert m in FailNames(v);
      assert w.states[m] == Fail;
    }
    if st == Fail { assert w.states[n] == Fail; }
  }

  lemma AnswerKeepsChildren(v: View, n: CmdName, st: CmdState)
    requires ChildrenOk(v) && n in v.states && v.states[n] == Processing && Determined(st)
    ensures ChildrenOk(VAnswer(v, n, st))
  {
  }

  lemma ForwardKeepsChildren(v: View)
    requires ChildrenOk(v) && VnfCmd in v.states && v.states[VnfCmd] == Waiting
    ensures ChildrenOk(VForward(v, VnfCmd))
    ensures SomeFail(VForward(v, VnfCmd).states) <==> SomeFail(v.states)
    ensures !AllAnswered(VForward(v, VnfCmd).states)
  {
    var w := VForward(v, VnfCmd);
    assert w.states[VnfCmd] == Processing;
    if SomeFail(v.states) {
      var m :| m in v.states && v.states[m] == Fail;
      assert w.states[m] == Fail;
    }
  }

  /** What a family must satisfy to be cleaned up. */
  ghost predicate ReadyToClean(v: View) {
    && v.stored && v.states != map[] && ChildrenOk(v) && VnfNotHeldBack(v) && VnfAfterSff(v)
    && v.replies == if SomeFail(v.states) then [Fail] else if AllAnswered(v.states) then [Successful] else []
  }

  /** Nobody is left, or somebody failed: the reply goes out, once. */
  lemma ReplyIsReady(names: set<CmdName>, v: View, n: CmdName, st: CmdState)
    requires FamilyOk(names, v) && v.stored && n in v.states && v.states[n] == Processing && Determined(st)
    requires var w := VAnswer(v, n, st); SomeFail(w.states) || forall m | m in w.states :: w.states[m] == Successful
    ensures var r := VReact(VAnswer(v, n, st), n);
      ReadyToClean(r) && r.answers == VAnswer(v, n, st).answers && r.names == names
  {
    FirstFailure(v, n, st);
    AnswerKeepsChildren(v, n, st);
    assert !AllAnswered(v.states);
  }

  /** Nobody failed and somebody is left: the VNF child goes out if it may. */
  lemma ReleaseIsReady(names: set<CmdName>, v: View, n: CmdName, st: CmdState)
    requires FamilyOk(names, v) && v.stored && n in v.states && v.states[n] == Processing && Determined(st)
    requires var w := VAnswer(v, n, st); !SomeFail(w.states) && exists m | m in w.states :: w.states[m] != Successful
    ensures var r := VReact(VAnswer(v, n, st), n);
      ReadyToClean(r) && r.answers == VAnswer(v, n, st).answers && r.names == names
  {
    var w := VAnswer(v, n, st);
    FirstFailure(v, n, st);
    AnswerKeepsChildren(v, n, st);
    assert !AllAnswered(w.states);
    if VReact(w, n) != w { ForwardKeepsChildren(w); }
  }

  /** The heart of the protocol: an answer to a child in progress keeps the family right,
      whatever the answer and whatever came before. */
  lemma AnswerKeepsFamily(names: set<CmdName>, v: View, n: CmdName, st: CmdState)
    requires FamilyOk(names, v) && v.stored && n in v.states && v.states[n] == Processing && Determined(st)
    ensures FamilyOk(names, VHandle(v, n, st))
  {
    var w := VAnswer(v, n, st);
    if SomeFail(w.states) || forall m | m in w.states :: w.states[m] == Successful {
      ReplyIsReady(names, v, n, st);
    } else {
      ReleaseIsReady(names, v, n, st);
    }
    CleanUpKeepsFamily(names, VReact(w, n));
  }
}
