/** Each elementary step of the mediator keeps the store linked, moves one family as its
    view says, and leaves every other family alone. */
module MediatorSteps {
  import opened Tries
  import opened MediatorModel
  import opened MediatorInvariant

  ghost predicate SameChild(s: Sys, t: Sys, c: CmdID) {
    && (c in t.store <==> c in s.store) && (c in s.store ==> t.store[c].state == s.store[c].state)
    && (c in t.hist.answers <==> c in s.hist.answers)
    && (c in s.hist.answers ==> t.hist.answers[c] == s.hist.answers[c])
    && (c in t.hist.sent <==> c in s.hist.sent) && (c in s.hist.sent ==> t.hist.sent[c] == s.hist.sent[c])
  }

  /** Outside `p`, its children and ids nobody knows, nothing differs. */
  ghost predicate OnlyTouches(s: Sys, t: Sys, p: CmdID) {
    && t.server == s.server && t.family.Keys == s.family.Keys + {p}
    && (forall q | q in s.family && q != p ::
          && t.family[q] == s.family[q] && q in s.accepted && q in t.accepted && t.accepted[q] == s.accepted[q]
          && (q in t.store <==> q in s.store) && RepliesTo(t.hist, q) == RepliesTo(s.hist, q))
    && (forall c | c in s.place && s.place[c].parent != p :: SameChild(s, t, c))
  }

  /** A family that is not touched looks the same. */
  lemma OthersKeep(s: Sys, t: Sys, p: CmdID, q: CmdID, v: View)
    requires Linked(s) && OnlyTouches(s, t, p) && q in s.family && q != p && IsView(s, q, v)
    ensures IsView(t, q, v)
  {
    assert ParentLinked(s, q);
    forall n | n in t.family[q] ensures Sees(t, v, n, t.family[q][n]) {
      assert Sees(s, v, n, s.family[q][n]);
      assert SameChild(s, t, s.family[q][n]);
    }
  }

  /** The step moved only the family of `p`: it now looks like `v`. */
  ghost predicate Moves(s: Sys, t: Sys, p: CmdID, v: View) {
    && Linked(t) && p in t.family && IsView(t, p, v)
    && t.server == s.server && t.family.Keys == s.family.Keys + {p}
    && forall q, w {:trigger IsView(s, q, w)} | q in s.family && q in s.accepted && q != p && IsView(s, q, w) :: IsView(t, q, w)
  }

  lemma MovesTrans(s: Sys, t: Sys, u: Sys, p: CmdID, v: View, w: View)
    requires Linked(s) && Moves(s, t, p, v) && Moves(t, u, p, w)
    ensures Moves(s, u, p, w)
  {
  }

  lemma MovesBy(s: Sys, t: Sys, p: CmdID, v: View)
    requires Linked(s) && Linked(t) && OnlyTouches(s, t, p) && p in t.family && IsView(t, p, v)
    ensures Moves(s, t, p, v)
  {
    forall q, w {:trigger IsView(s, q, w)} | q in s.family && q != p && IsView(s, q, w) ensures IsView(t, q, w) {
      OthersKeep(s, t, p, q, w);
    }
  }

  // ------------------------------------------------------------ building a family

  function Start(s: Sys, cmd: Command): Sys {
    s.(store := s.store[cmd.cmdID := NewInfo(cmd)],
       accepted := s.accepted[cmd.cmdID := cmd], family := s.family[cmd.cmdID := map[]])
  }

  function NoView(cmd: Command): View {
    View(cmd, true, {}, map[], map[], map[], [])
  }

  lemma StartMoves(s: Sys, cmd: Command)
    requires Linked(s) && !Known(s, cmd.cmdID)
    ensures Moves(s, Start(s, cmd), cmd.cmdID, NoView(cmd))
  {
    var t := Start(s, cmd);
    assert Linked(t) by {
      forall q | q in t.family ensures ParentLinked(t, q) { assert q in s.family ==> ParentLinked(s, q); }
      forall c | c in t.place ensures ChildLinked(t, c) { assert ChildLinked(s, c); }
      forall id | id in t.store ensures Known(t, id) { assert id in s.store ==> Known(s, id); }
    }
    MovesBy(s, t, cmd.cmdID, NoView(cmd));
  }

  /** A new child fits its parent. */
  ghost predicate Fresh(s: Sys, p: CmdID, n: CmdName, c: CmdID) {
    Linked(s) && p in s.family && p in s.store && n !in s.family[p] && !Known(s, c)
  }

  lemma PrepareParents(s: Sys, p: CmdID, n: CmdName, c: CmdID, q: CmdID)
    requires Fresh(s, p, n, c) && q in s.family
    ensures q in Prepare(s, p, n, c).family && ParentLinked(Prepare(s, p, n, c), q)
  {
    assert ParentLinked(s, q);
  }

  lemma PrepareChildren(s: Sys, p: CmdID, n: CmdName, c: CmdID, d: CmdID)
    requires Fresh(s, p, n, c) && d in Prepare(s, p, n, c).place
    ensures ChildLinked(Prepare(s, p, n, c), d)
  {
    if d != c { assert ChildLinked(s, d); }
  }

  lemma PrepareLinked(s: Sys, p: CmdID, n: CmdName, c: CmdID)
    requires Fresh(s, p, n, c)
    ensures Linked(Prepare(s, p, n, c))
  {
    var t := Prepare(s, p, n, c);
    forall q | q in t.family ensures ParentLinked(t, q) { PrepareParents(s, p, n, c, q); }
    forall d | d in t.place ensures ChildLinked(t, d) { PrepareChildren(s, p, n, c, d); }
    forall id | id in t.store ensures Known(t, id) { assert id in s.store ==> Known(s, id); }
  }

  lemma PrepareTouches(s: Sys, p: CmdID, n: CmdName, c: CmdID)
    requires Fresh(s, p, n, c)
    ensures OnlyTouches(s, Prepare(s, p, n, c), p)
  {
  }

  lemma PrepareSeesChild(s: Sys, p: CmdID, n: CmdName, c: CmdID, v: View, m: CmdName)
    requires Fresh(s, p, n, c) && IsView(s, p, v) && (m == n || m in s.family[p])
    ensures var t := Prepare(s, p, n, c);
      p in t.family && m in t.family[p] && Sees(t, VPrepare(v, n), m, t.family[p][m])
  {
    if m == n {
      assert c !in s.hist.answers && c !in s.hist.sent;
    } else {
      assert ParentLinked(s, p);
      assert Sees(s, v, m, s.family[p][m]);
      assert s.family[p][m] in s.place && s.family[p][m] != c && s.family[p][m] != p;
    }
  }

  lemma PrepareSeen(s: Sys, p: CmdID, n: CmdName, c: CmdID, v: View)
    requires Fresh(s, p, n, c) && IsView(s, p, v)
    ensures var t := Prepare(s, p, n, c); p in t.family && p in t.accepted && IsView(t, p, VPrepare(v, n))
  {
    var t := Prepare(s, p, n, c);
    assert p in s.accepted by { assert ParentLinked(s, p); }
    forall m | m in t.family[p] ensures Sees(t, VPrepare(v, n), m, t.family[p][m]) {
      PrepareSeesChild(s, p, n, c, v, m);
    }
  }

  lemma PrepareMoves(s: Sys, p: CmdID, n: CmdName, c: CmdID, v: View)
    requires Fresh(s, p, n, c) && IsView(s, p, v)
    ensures Moves(s, Prepare(s, p, n, c), p, VPrepare(v, n))
  {
    PrepareSeen(s, p, n, c, v);
    PrepareLinked(s, p, n, c);
    PrepareTouches(s, p, n, c);
    MovesBy(s, Prepare(s, p, n, c), p, VPrepare(v, n));
  }

  // ------------------------------------------------------------ moving a family on

  /** The child exists and its parent is stored. */
  ghost predicate LiveChild(s: Sys, p: CmdID, n: CmdName) {
    p in s.family && p in s.store && n in s.family[p]
  }

  /** Changing states, replies and sources, but no links. */
  ghost predicate SameLinks(s: Sys, t: Sys) {
    && t.server == s.server
    && t.family == s.family && t.accepted == s.accepted && t.place == s.place && t.store.Keys == s.store.Keys
    && forall id | id in s.store ::
         && t.store[id].childCmdID == s.store[id].childCmdID && t.store[id].parentCmdID == s.store[id].parentCmdID
         && (id in s.family ==> t.store[id].cmd == s.store[id].cmd && t.store[id].cmdReply == s.store[id].cmdReply)
  }

  lemma SameLinksLinked(s: Sys, t: Sys)
    requires Linked(s) && SameLinks(s, t)
    requires t.hist.answers.Keys <= s.place.Keys && t.hist.sent.Keys <= s.place.Keys
    requires t.hist.replies.Keys <= s.family.Keys
    requires forall c | c in s.place && c in s.store ::
      || (t.store[c].cmdReply.Some? && c in t.hist.answers)
      || (t.store[c].cmdReply == s.store[c].cmdReply && (c in t.hist.answers <==> c in s.hist.answers))
    ensures Linked(t)
  {
    forall q | q in t.family ensures ParentLinked(t, q) { assert ParentLinked(s, q); }
    forall c | c in t.place ensures ChildLinked(t, c) { assert ChildLinked(s, c); }
    forall id | id in t.store ensures Known(t, id) { assert Known(s, id); }
  }

  lemma LiveChildPlace(s: Sys, p: CmdID, n: CmdName)
    requires Linked(s) && LiveChild(s, p, n)
    ensures var c := s.family[p][n];
      && c in s.place && s.place[c] == Place(p, n) && c in s.store && c !in s.family
      && s.store[c].parentCmdID == Some(p) && (s.store[c].cmdReply.Some? <==> c in s.hist.answers)
  {
    assert ParentLinked(s, p);
    assert ChildLinked(s, s.family[p][n]);
    assert s.family[p][n] in s.family ==> ParentLinked(s, s.family[p][n]);
  }

  lemma LiveFamily(s: Sys, p: CmdID, v: View)
    requires Linked(s) && p in s.family && p in s.store && IsView(s, p, v)
    ensures FamilyStored(s.store, p) && s.store[p].childCmdID == s.family[p] && s.store[p].cmd == s.accepted[p]
    ensures v.states.Keys == s.family[p].Keys
    ensures forall m | m in s.family[p] :: v.states[m] == ChildState(s.store, p, m)
  {
    assert ParentLinked(s, p);
    forall m | m in s.family[p] ensures s.family[p][m] in s.store && m in v.states && v.states[m] == s.store[s.family[p][m]].state {
      assert ChildLinked(s, s.family[p][m]) && Sees(s, v, m, s.family[p][m]);
    }
  }

  /** The two views agree except on the child at `n`. */
  ghost predicate SameButOne(v: View, w: View, n: CmdName) {
    && w.cmd == v.cmd && w.stored == v.stored && w.names == v.names && w.replies == v.replies
    && w.states.Keys <= w.names && w.answers.Keys <= w.names && w.sent.Keys <= w.names
    && forall m | m in v.names && m != n ::
         && (m in w.states <==> m in v.states) && (m in v.states ==> w.states[m] == v.states[m])
         && (m in w.answers <==> m in v.answers) && (m in v.answers ==> w.answers[m] == v.answers[m])
         && (m in w.sent <==> m in v.sent) && (m in v.sent ==> w.sent[m] == v.sent[m])
  }

  lemma StillSeen(s: Sys, t: Sys, v: View, w: View, m: CmdName, n: CmdName, c: CmdID)
    requires SameButOne(v, w, n) && m in v.names && m != n && Sees(s, v, m, c) && SameChild(s, t, c)
    ensures Sees(t, w, m, c)
  {
  }

  /** A step that changes one child and nothing else. */
  lemma ChildMoves(s: Sys, t: Sys, p: CmdID, n: CmdName, v: View, w: View)
    requires Linked(s) && Linked(t) && SameLinks(s, t) && LiveChild(s, p, n) && IsView(s, p, v)
    requires t.hist.replies == s.hist.replies
    requires forall c | c in s.place && c != s.family[p][n] :: SameChild(s, t, c)
    requires SameButOne(v, w, n) && Sees(t, w, n, s.family[p][n])
    ensures Moves(s, t, p, w)
  {
    LiveChildPlace(s, p, n);
    assert ParentLinked(s, p);
    forall m | m in t.family[p] ensures Sees(t, w, m, t.family[p][m]) {
      if m != n {
        assert SameChild(s, t, s.family[p][m]);
        StillSeen(s, t, v, w, m, n, s.family[p][m]);
      }
    }
    MovesBy(s, t, p, w);
  }

  /** Marking a parent as being processed is not seen. */
  lemma MarkParentMoves(s: Sys, p: CmdID, st: CmdState, v: View)
    requires Linked(s) && p in s.family && p in s.store && IsView(s, p, v)
    ensures Moves(s, s.(store := s.store[p := s.store[p].(state := st)]), p, v)
  {
    var t := s.(store := s.store[p := s.store[p].(state := st)]);
    SameLinksLinked(s, t);
    assert ParentLinked(s, p);
    forall m | m in t.family[p] ensures Sees(t, v, m, t.family[p][m]) {
      assert Sees(s, v, m, s.family[p][m]);
    }
    MovesBy(s, t, p, v);
  }

  lemma MarkChildMoves(s: Sys, p: CmdID, n: CmdName, info: CmdInfo, v: View)
    requires Linked(s) && LiveChild(s, p, n) && s.family[p][n] in s.store && IsView(s, p, v)
    requires var was := s.store[s.family[p][n]];
      info.childCmdID == was.childCmdID && info.parentCmdID == was.parentCmdID && info.cmdReply == was.cmdReply
    ensures Moves(s, s.(store := s.store[s.family[p][n] := info]), p, v.(states := v.states[n := info.state]))
  {
    var c := s.family[p][n];
    var t := s.(store := s.store[c := info]);
    LiveChildPlace(s, p, n);
    assert Sees(s, v, n, c);
    SameLinksLinked(s, t);
    ChildMoves(s, t, p, n, v, v.(states := v.states[n := info.state]));
  }

  lemma NoteForwardMoves(s: Sys, p: CmdID, n: CmdName, cmd: Command, v: View)
    requires Linked(s) && LiveChild(s, p, n) && IsView(s, p, v)
    ensures Moves(s, s.(hist := Note(s.hist, Forwarded(n, s.family[p][n], cmd))), p, VSend(v, n))
  {
    var c := s.family[p][n];
    var t := s.(hist := Note(s.hist, Forwarded(n, c, cmd)));
    LiveChildPlace(s, p, n);
    assert Sees(s, v, n, c);
    SameLinksLinked(s, t);
    ForwardSeen(s, c, cmd, v, n);
    SendElsewhere(v, n);
    ChildMoves(s, t, p, n, v, VSend(v, n));
  }

  /** Sending a child is seen by it, and by no other. */
  lemma ForwardSeen(s: Sys, c: CmdID, cmd: Command, v: View, n: CmdName)
    requires Sees(s, v, n, c)
    ensures var t := s.(hist := Note(s.hist, Forwarded(n, c, cmd)));
      Sees(t, VSend(v, n), n, c) && forall d | d != c :: SameChild(s, t, d)
  {
  }

  lemma SendElsewhere(v: View, n: CmdName)
    requires n in v.names && v.states.Keys <= v.names && v.answers.Keys <= v.names && v.sent.Keys <= v.names
    ensures SameButOne(v, VSend(v, n), n)
  {
  }

  /** Forwarding a waiting child. */
  lemma ForwardMoves(s: Sys, p: CmdID, n: CmdName, v: View)
    requires Linked(s) && LiveChild(s, p, n) && IsView(s, p, v)
    requires s.family[p][n] in s.store && s.store[s.family[p][n]].state == Waiting
    ensures Moves(s, Forward(s, p, n, s.family[p][n]), p, VForward(v, n))
  {
    var c := s.family[p][n];
    LiveChildPlace(s, p, n);
    var s1 := s.(store := Transit(s.store, p, Waiting, Processing));
    assert s1 == s.(store := s.store[p := s.store[p].(state := s1.store[p].state)]);
    MarkParentMoves(s, p, s1.store[p].state, v);
    var info := s1.store[c].(state := Processing);
    MarkChildMoves(s1, p, n, info, v);
    var s2 := s1.(store := s1.store[c := info]);
    var w := v.(states := v.states[n := Processing]);
    NoteForwardMoves(s2, p, n, info.cmd, w);
    assert Forward(s, p, n, c) == s2.(hist := Note(s.hist, Forwarded(n, c, info.cmd)));
    MovesTrans(s, s1, s2, p, v, w);
    MovesTrans(s, s2, Forward(s, p, n, c), p, w, VForward(v, n));
  }

  lemma RecordLinked(s: Sys, p: CmdID, n: CmdName, st: CmdState)
    requires Linked(s) && LiveChild(s, p, n)
    requires s.family[p][n] in s.store && s.family[p][n] !in s.hist.answers
    ensures var t := Record(s, CmdReply(s.family[p][n], st)); Linked(t) && SameLinks(s, t)
  {
    LiveChildPlace(s, p, n);
    SameLinksLinked(s, Record(s, CmdReply(s.family[p][n], st)));
  }

  /** Filing a reply is seen by the child it is from, and by no other. */
  lemma RecordSeen(s: Sys, c: CmdID, st: CmdState, v: View, n: CmdName)
    requires c in s.store && c !in s.hist.answers && Sees(s, v, n, c)
    ensures Sees(Record(s, CmdReply(c, st)), VAnswer(v, n, st), n, c)
    ensures forall d | d != c :: SameChild(s, Record(s, CmdReply(c, st)), d)
  {
  }

  lemma AnswerElsewhere(v: View, n: CmdName, st: CmdState)
    requires n in v.names && v.states.Keys <= v.names && v.answers.Keys <= v.names && v.sent.Keys <= v.names
    ensures SameButOne(v, VAnswer(v, n, st), n)
  {
  }

  /** Filing the first reply to a child. */
  lemma RecordMoves(s: Sys, p: CmdID, n: CmdName, st: CmdState, v: View)
    requires Linked(s) && LiveChild(s, p, n) && IsView(s, p, v)
    requires s.family[p][n] in s.store && s.family[p][n] !in s.hist.answers
    ensures Moves(s, Record(s, CmdReply(s.family[p][n], st)), p, VAnswer(v, n, st))
  {
    var c := s.family[p][n];
    var t := Record(s, CmdReply(c, st));
    assert Sees(s, v, n, s.family[p][n]);
    RecordLinked(s, p, n, st);
    RecordSeen(s, c, st, v, n);
    AnswerElsewhere(v, n, st);
    ChildMoves(s, t, p, n, v, VAnswer(v, n, st));
  }

  lemma ReplyMoves(s: Sys, p: CmdID, st: CmdState, v: View)
    requires Linked(s) && p in s.family && p in s.store && IsView(s, p, v)
    ensures Moves(s, ReplyTo(s, p, st), p, VReply(v, st))
  {
    var s1 := s.(store := s.store[p := s.store[p].(state := st)]);
    MarkParentMoves(s, p, st, v);
    var t := s1.(hist := Note(s1.hist, Replied(p, st, s.store[p].cmd.source)));
    SameLinksLinked(s1, t);
    forall m | m in t.family[p] ensures Sees(t, VReply(v, st), m, t.family[p][m]) {
      assert Sees(s1, v, m, s1.family[p][m]);
    }
    MovesBy(s1, t, p, VReply(v, st));
    MovesTrans(s, s1, t, p, v, VReply(v, st));
  }

  lemma DeleteMoves(s: Sys, p: CmdID, v: View)
    requires Linked(s) && p in s.family && p in s.store && IsView(s, p, v)
    ensures Moves(s, s.(store := WithoutFamily(s.store, p)), p, v.(stored := false, states := map[]))
  {
    var t := s.(store := WithoutFamily(s.store, p));
    var w := v.(stored := false, states := map[]);
    WithoutFamilyKeys(s, p);
    assert Linked(t) by {
      forall q | q in t.family ensures ParentLinked(t, q) { assert ParentLinked(s, q); }
      forall c | c in t.place ensures ChildLinked(t, c) { assert ChildLinked(s, c); }
      forall id | id in t.store ensures Known(t, id) { assert Known(s, id); }
    }
    assert ParentLinked(s, p);
    forall m | m in t.family[p] ensures Sees(t, w, m, t.family[p][m]) {
      assert Sees(s, v, m, s.family[p][m]);
    }
    assert OnlyTouches(s, t, p) by {
      forall q | q in s.family && q != p ensures q in t.store <==> q in s.store { assert ParentLinked(s, q); }
    }
    MovesBy(s, t, p, w);
  }

  /** Exactly the family goes. */
  lemma WithoutFamilyKeys(s: Sys, p: CmdID)
    requires Linked(s) && p in s.family && p in s.store
    ensures forall id :: id in WithoutFamily(s.store, p) <==>
      id in s.store && id != p && !(id in s.place && s.place[id].parent == p)
  {
    assert ParentLinked(s, p);
    forall id | id in s.place && s.place[id].parent == p ensures id in s.family[p].Values {
      assert ChildLinked(s, id);
    }
  }
}
