/** The mediator's protocol on values: what each command and each reply does to the command
    store, with a log of everything sent and received. */
module MediatorModel {
  import opened Tries

  // ------------------------------------------------------------ data

  datatype CmdType = AddSfc | AddSfci | DelSfci | DelSfc
  datatype Zone = SimulatorZone | TurbonetZone | PufferZone | UnknownZone
  datatype CmdState = Waiting | Processing | Successful | Fail

  /** A child command is filed under the type of the message that forwards it. */
  datatype CmdName = ClassifierCmd | NetworkCmd | SffCmd | P4Cmd | VnfCmd | SimulatorCmd

  type CmdID = int

  datatype Command = Command(cmdType: CmdType, cmdID: CmdID, zone: Zone, source: string)
  datatype CmdReply = CmdReply(cmdID: CmdID, cmdState: CmdState)

  datatype CmdInfo = CmdInfo(
    cmd: Command, state: CmdState, cmdReply: Option<CmdReply>,
    parentCmdID: Option<CmdID>, childCmdID: map<CmdName, CmdID>)

  type Store = map<CmdID, CmdInfo>

  /** What the mediator does and hears, in order. */
  datatype Action =
    | Forwarded(name: CmdName, child: CmdID, message: Command)
    | Answered(cmd: CmdID, state: CmdState)
    | Replied(parent: CmdID, state: CmdState, to: string)

  /** The log of actions and what it says: the first reply to each child command, how often
      each was forwarded, and the replies each parent got. */
  datatype History = History(
    log: seq<Action>,
    answers: map<CmdID, CmdState>, sent: map<CmdID, nat>, replies: map<CmdID, seq<CmdState>>)

  const NOTHING_YET := History([], map[], map[], map[])

  function AnswerOf(h: History, c: CmdID): Option<CmdState> {
    if c in h.answers then Some(h.answers[c]) else None
  }

  function TimesSent(h: History, c: CmdID): nat {
    if c in h.sent then h.sent[c] else 0
  }

  function RepliesTo(h: History, p: CmdID): seq<CmdState> {
    if p in h.replies then h.replies[p] else []
  }

  function Note(h: History, a: Action): History {
    var noted := h.(log := h.log + [a]);
    match a
    case Forwarded(_, c, _) => noted.(sent := h.sent[c := TimesSent(h, c) + 1])
    case Answered(c, st) => if c in h.answers then noted else noted.(answers := h.answers[c := st])
    case Replied(p, st, _) => noted.(replies := h.replies[p := RepliesTo(h, p) + [st]])
  }

  /** The history as the log alone tells it. */
  function Replay(log: seq<Action>): History {
    if log == [] then NOTHING_YET else Note(Replay(log[..|log| - 1]), log[|log| - 1])
  }

  datatype Place = Place(parent: CmdID, name: CmdName)

  /** The store and the history, with every command accepted so far, its children, and the
      place of every child. */
  datatype Sys = Sys(
    server: bool, store: Store, hist: History,
    accepted: map<CmdID, Command>, family: map<CmdID, map<CmdName, CmdID>>, place: map<CmdID, Place>)

  // ------------------------------------------------------------ the command store

  function NewInfo(cmd: Command): CmdInfo {
    CmdInfo(cmd, Waiting, None, None, map[])
  }

  /** The same commands are stored, with the same children. */
  ghost predicate SameShape(s: Store, t: Store) {
    t.Keys == s.Keys && forall id | id in s :: t[id].childCmdID == s[id].childCmdID
  }

  function Transit(s: Store, id: CmdID, prev: CmdState, next: CmdState): (t: Store)
    ensures SameShape(s, t)
  {
    if id in s && s[id].state == prev then s[id := s[id].(state := next)] else s
  }

  /** Every child id of `p` is stored. */
  predicate FamilyStored(s: Store, p: CmdID) {
    p in s && forall n | n in s[p].childCmdID :: s[p].childCmdID[n] in s
  }

  function ChildState(s: Store, p: CmdID, n: CmdName): CmdState
    requires FamilyStored(s, p) && n in s[p].childCmdID
  {
    s[s[p].childCmdID[n]].state
  }

  predicate AllSuccessful(s: Store, p: CmdID)
    requires FamilyStored(s, p)
  {
    forall n | n in s[p].childCmdID :: ChildState(s, p, n) == Successful
  }

  function ChildrenIn(s: Store, p: CmdID, st: CmdState): set<CmdName>
    requires FamilyStored(s, p)
  {
    set n | n in s[p].childCmdID && ChildState(s, p, n) == st
  }

  predicate AllDetermined(s: Store, p: CmdID)
    requires FamilyStored(s, p)
  {
    forall n | n in s[p].childCmdID :: ChildState(s, p, n) == Successful || ChildState(s, p, n) == Fail
  }

  /** The store without `p` and its children. */
  function WithoutFamily(s: Store, p: CmdID): Store
    requires p in s
  {
    s - s[p].childCmdID.Values - {p}
  }

  // ------------------------------------------------------------ commands

  /** Adds a child command: `_prepareChildCmd`. */
  function Prepare(s: Sys, p: CmdID, n: CmdName, c: CmdID): Sys
    requires p in s.store && p in s.family
  {
    var parent := s.store[p].(childCmdID := s.store[p].childCmdID[n := c]);
    var child := NewInfo(s.store[p].cmd.(cmdID := c)).(parentCmdID := Some(p));
    s.(store := s.store[p := parent][c := child],
       family := s.family[p := s.family[p][n := c]], place := s.place[c := Place(p, n)])
  }

  /** Sends a child command on its way and marks it and its parent as being processed. */
  function Forward(s: Sys, p: CmdID, n: CmdName, c: CmdID): (r: Sys)
    requires c in s.store
    ensures SameShape(s.store, r.store)
  {
    s.(store := Transit(Transit(s.store, p, Waiting, Processing), c, Waiting, Processing),
       hist := Note(s.hist, Forwarded(n, c, s.store[c].cmd)))
  }

  /** The children of a command that are forwarded at once, in order. */
  function Immediate(server: bool, zone: Zone, t: CmdType): seq<CmdName> {
    match zone
    case SimulatorZone => [SimulatorCmd]
    case TurbonetZone =>
      (match t
       case AddSfc => [P4Cmd]
       case AddSfci => [SffCmd, P4Cmd]
       case DelSfci => [SffCmd, P4Cmd, VnfCmd]
       case DelSfc => [P4Cmd])
    case PufferZone =>
      var first := if server then [ClassifierCmd] else [];
      (match t
       case AddSfc => first + [NetworkCmd]
       case AddSfci => first + [SffCmd, NetworkCmd]
       case DelSfci => first + [SffCmd, NetworkCmd, VnfCmd]
       case DelSfc => first + [NetworkCmd])
    case UnknownZone => []
  }

  /** Only a new chain instance keeps a child back: the VNFs wait for the forwarders. */
  predicate Deferred(zone: Zone, t: CmdType) {
    (zone == TurbonetZone || zone == PufferZone) && t == AddSfci
  }

  function ForwardAll(s: Sys, p: CmdID, names: seq<CmdName>, uuids: seq<CmdID>): (r: Sys)
    requires p in s.store && p in s.family && |names| <= |uuids|
    ensures p in r.store && p in r.family && r.server == s.server && r.accepted == s.accepted
  {
    if names == [] then s
    else
      var n := |names| - 1;
      var done := ForwardAll(s, p, names[..n], uuids);
      Forward(Prepare(done, p, names[n], uuids[n]), p, names[n], uuids[n])
  }

  lemma ForwardAllLast(s: Sys, p: CmdID, all: seq<CmdName>, uuids: seq<CmdID>)
    requires p in s.store && p in s.family && 0 < |all| <= |uuids|
    ensures var n := |all| - 1; var t := ForwardAll(s, p, all[..n], uuids);
      ForwardAll(s, p, all, uuids) == Forward(Prepare(t, p, all[n], uuids[n]), p, all[n], uuids[n])
  {
  }

  /** `uuids` are the identifiers the generator hands out during the call. */
  function HandleCommand(s: Sys, cmd: Command, uuids: seq<CmdID>): Sys
    requires |uuids| == 4
  {
    var p := cmd.cmdID;
    var s1 := s.(store := s.store[p := NewInfo(cmd)],
                 accepted := s.accepted[p := cmd], family := s.family[p := map[]]);
    var names := Immediate(s.server, cmd.zone, cmd.cmdType);
    var s2 := ForwardAll(s1, p, names, uuids);
    if Deferred(cmd.zone, cmd.cmdType) then Prepare(s2, p, VnfCmd, uuids[|names|]) else s2
  }

  // ------------------------------------------------------------ replies

  function ReplyTo(s: Sys, p: CmdID, st: CmdState): (r: Sys)
    requires p in s.store
    ensures SameShape(s.store, r.store)
  {
    s.(store := s.store[p := s.store[p].(state := st)],
       hist := Note(s.hist, Replied(p, st, s.store[p].cmd.source)))
  }

  /** The waiting VNF child goes out once the forwarders are set up. */
  function Release(s: Sys, p: CmdID): (r: Sys)
    requires FamilyStored(s.store, p)
    ensures SameShape(s.store, r.store)
  {
    var kids := s.store[p].childCmdID;
    if s.store[p].cmd.cmdType == AddSfci && SffCmd in kids && VnfCmd in kids
       && ChildState(s.store, p, SffCmd) == Successful && ChildState(s.store, p, VnfCmd) == Waiting
    then
      var c := kids[VnfCmd];
      Forward(s.(store := s.store[c := s.store[c].(cmd := s.store[c].cmd.(source := "unknown"))]), p, VnfCmd, c)
    else s
  }

  function React(s: Sys, p: CmdID, c: CmdID): (r: Sys)
    requires FamilyStored(s.store, p) && c in s.store
    ensures SameShape(s.store, r.store)
  {
    if AllSuccessful(s.store, p) then ReplyTo(s, p, Successful)
    else if ChildrenIn(s.store, p, Fail) != {} then
      if |ChildrenIn(s.store, p, Fail)| == 1 && s.store[c].state == Fail then ReplyTo(s, p, Fail) else s
    else if ChildrenIn(s.store, p, Waiting) != {} then Release(s, p)
    else s
  }

  function CleanUp(s: Sys, p: CmdID): Sys
    requires FamilyStored(s.store, p)
  {
    if AllDetermined(s.store, p) then s.(store := WithoutFamily(s.store, p)) else s
  }

  /** Files a reply with its command. */
  function Record(s: Sys, r: CmdReply): Sys
    requires r.cmdID in s.store
  {
    s.(store := s.store[r.cmdID := s.store[r.cmdID].(state := r.cmdState, cmdReply := Some(r))],
       hist := Note(s.hist, Answered(r.cmdID, r.cmdState)))
  }

  /** Unknown ids and second replies change nothing. */
  function HandleReply(s: Sys, r: CmdReply): Sys
    requires ReplyReady(s, r)
  {
    if r.cmdID !in s.store || s.store[r.cmdID].cmdReply.Some? then s
    else
      var p := s.store[r.cmdID].parentCmdID.value;
      var s1 := Record(s, r);
      CleanUp(React(s1, p, r.cmdID), p)
  }

  /** A stored command that gets a reply is the child of a stored family. */
  predicate ReplyReady(s: Sys, r: CmdReply) {
    r.cmdID in s.store ==>
      s.store[r.cmdID].parentCmdID.Some? && FamilyStored(s.store, s.store[r.cmdID].parentCmdID.value)
      && s.store[r.cmdID].parentCmdID.value != r.cmdID
  }
}
