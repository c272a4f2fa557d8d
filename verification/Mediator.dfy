/** The mediator as the source runs it: handlers that update a command store in place and
    send messages, proved to do what the model of the protocol says. */
module Mediators {
  import opened Tries
  import opened MediatorModel

  class CommandMaintainer {
    var commandsInfo: Store

    constructor ()
      ensures commandsInfo == map[]
    {
      commandsInfo := map[];
    }

    method AddCmd(cmd: Command)
      modifies this
      ensures commandsInfo == old(commandsInfo)[cmd.cmdID := NewInfo(cmd)]
    {
      commandsInfo := commandsInfo[cmd.cmdID := CmdInfo(cmd, Waiting, None, None, map[])];
    }

    /** Deletes a command and each of its children. */
    method DelCmdwithChildCmd(cmdID: CmdID)
      requires FamilyStored(commandsInfo, cmdID)
      modifies this
      ensures commandsInfo == WithoutFamily(old(commandsInfo), cmdID)
    {
      var children := commandsInfo[cmdID].childCmdID;
      var todo := children.Keys;
      ghost var gone: set<CmdID> := {};
      while todo != {}
        invariant todo <= children.Keys
        invariant gone == set n | n in children && n !in todo :: children[n]
        invariant commandsInfo == old(commandsInfo) - gone
        decreases |todo|
      {
        var key :| key in todo;
        todo := todo - {key};
        gone := gone + {children[key]};
        commandsInfo := commandsInfo - {children[key]};
      }
      assert gone == children.Values;
      commandsInfo := commandsInfo - {cmdID};
    }

    method AddChildCmd2Cmd(currentCmdID: CmdID, childCmdName: CmdName, childCmdID: CmdID)
      requires currentCmdID in commandsInfo
      modifies this
      ensures var info := old(commandsInfo[currentCmdID]);
        commandsInfo == old(commandsInfo)[currentCmdID := info.(childCmdID := info.childCmdID[childCmdName := childCmdID])]
    {
      var info := commandsInfo[currentCmdID];
      commandsInfo := commandsInfo[currentCmdID := info.(childCmdID := info.childCmdID[childCmdName := childCmdID])];
    }

    method AddParentCmd2Cmd(currentCmdID: CmdID, parentCmdID: CmdID)
      requires currentCmdID in commandsInfo
      modifies this
      ensures commandsInfo ==
        old(commandsInfo[currentCmdID := commandsInfo[currentCmdID].(parentCmdID := Some(parentCmdID))])
    {
      commandsInfo := commandsInfo[currentCmdID := commandsInfo[currentCmdID].(parentCmdID := Some(parentCmdID))];
    }

    method ChangeCmdState(cmdID: CmdID, state: CmdState)
      requires cmdID in commandsInfo
      modifies this
      ensures commandsInfo == old(commandsInfo[cmdID := commandsInfo[cmdID].(state := state)])
    {
      commandsInfo := commandsInfo[cmdID := commandsInfo[cmdID].(state := state)];
    }

    method TransitCmdState(cmdID: CmdID, statePrev: CmdState, stateNext: CmdState)
      modifies this
      ensures commandsInfo == Transit(old(commandsInfo), cmdID, statePrev, stateNext)
    {
      if cmdID in commandsInfo {
        var state := commandsInfo[cmdID].state;
        if state == statePrev {
          commandsInfo := commandsInfo[cmdID := commandsInfo[cmdID].(state := stateNext)];
        }
      }
    }

    method SetSource(cmdID: CmdID, source: string)
      requires cmdID in commandsInfo
      modifies this
      ensures var info := old(commandsInfo[cmdID]);
        commandsInfo == old(commandsInfo)[cmdID := info.(cmd := info.cmd.(source := source))]
    {
      var info := commandsInfo[cmdID];
      commandsInfo := commandsInfo[cmdID := info.(cmd := info.cmd.(source := source))];
    }

    method AddCmdRply(cmdID: CmdID, cmdRply: CmdReply)
      requires cmdID in commandsInfo
      modifies this
      ensures commandsInfo == old(commandsInfo[cmdID := commandsInfo[cmdID].(cmdReply := Some(cmdRply))])
    {
      commandsInfo := commandsInfo[cmdID := commandsInfo[cmdID].(cmdReply := Some(cmdRply))];
    }

    method IsParentCmdSuccessful(cmdID: CmdID) returns (b: bool)
      requires FamilyStored(commandsInfo, cmdID)
      ensures b <==> AllSuccessful(commandsInfo, cmdID)
    {
      var children := commandsInfo[cmdID].childCmdID;
      var todo := children.Keys;
      while todo != {}
        invariant todo <= children.Keys
        invariant forall n | n in children && n !in todo :: ChildState(commandsInfo, cmdID, n) == Successful
        decreases |todo|
      {
        var key :| key in todo;
        todo := todo - {key};
        if commandsInfo[children[key]].state != Successful {
          assert ChildState(commandsInfo, cmdID, key) != Successful;
          return false;
        }
      }
      b := true;
    }

    method IsParentCmdFailed(cmdID: CmdID) returns (b: bool)
      requires FamilyStored(commandsInfo, cmdID)
      ensures b <==> ChildrenIn(commandsInfo, cmdID, Fail) != {}
    {
      b := HasChildIn(cmdID, Fail);
    }

    method IsParentCmdWaiting(cmdID: CmdID) returns (b: bool)
      requires FamilyStored(commandsInfo, cmdID)
      ensures b <==> ChildrenIn(commandsInfo, cmdID, Waiting) != {}
    {
      b := HasChildIn(cmdID, Waiting);
    }

    method HasChildIn(cmdID: CmdID, state: CmdState) returns (b: bool)
      requires FamilyStored(commandsInfo, cmdID)
      ensures b <==> ChildrenIn(commandsInfo, cmdID, state) != {}
    {
      var children := commandsInfo[cmdID].childCmdID;
      var todo := children.Keys;
      while todo != {}
        invariant todo <= children.Keys
        invariant forall n | n in children && n !in todo :: ChildState(commandsInfo, cmdID, n) != state
        decreases |todo|
      {
        var key :| key in todo;
        todo := todo - {key};
        if commandsInfo[children[key]].state == state {
          assert key in ChildrenIn(commandsInfo, cmdID, state);
          return true;
        }
      }
      b := false;
    }

    method IsOnlyOneChildCmdFailed(cmdID: CmdID) returns (b: bool)
      requires FamilyStored(commandsInfo, cmdID)
      ensures b <==> |ChildrenIn(commandsInfo, cmdID, Fail)| == 1
    {
      var children := commandsInfo[cmdID].childCmdID;
      var todo := children.Keys;
      var count := 0;
      ghost var found: set<CmdName> := {};
      while todo != {}
        invariant todo <= children.Keys
        invariant found == set n | n in children && n !in todo && ChildState(commandsInfo, cmdID, n) == Fail
        invariant count == |found|
        decreases |todo|
      {
        var key :| key in todo;
        todo := todo - {key};
        if commandsInfo[children[key]].state == Fail {
          count := count + 1;
          found := found + {key};
        }
      }
      assert found == ChildrenIn(commandsInfo, cmdID, Fail);
      b := count == 1;
    }

    method IsAllChildCmdDetermined(cmdID: CmdID) returns (b: bool)
      requires FamilyStored(commandsInfo, cmdID)
      ensures b <==> AllDetermined(commandsInfo, cmdID)
    {
      var children := commandsInfo[cmdID].childCmdID;
      var todo := children.Keys;
      while todo != {}
        invariant todo <= children.Keys
        invariant forall n | n in children && n !in todo ::
          ChildState(commandsInfo, cmdID, n) == Successful || ChildState(commandsInfo, cmdID, n) == Fail
        decreases |todo|
      {
        var key :| key in todo;
        todo := todo - {key};
        var state := commandsInfo[children[key]].state;
        if state == Waiting || state == Processing {
          assert ChildState(commandsInfo, cmdID, key) == state;
          return false;
        }
      }
      b := true;
    }
  }

  lemma Append1<T>(f: seq<T>, a: T)
    ensures f == [] ==> f + [a] == [a]
  {
  }

  lemma Append2<T>(f: seq<T>, a: T, b: T)
    ensures f + [a] + [b] == f + [a, b]
  {
  }

  lemma Append3<T>(f: seq<T>, a: T, b: T, c: T)
    ensures f + [a, b] + [c] == f + [a, b, c]
  {
  }

  /** The zones with forwarders and switches of their own. */
  predicate InZone(zone: Zone) {
    zone == TurbonetZone || zone == PufferZone
  }

  /** Whoever is told first: in the Puffer zone the classifier, if it is a server. */
  function Leading(server: bool, zone: Zone): (names: seq<CmdName>)
    ensures |names| <= 1
  {
    if server && zone == PufferZone then [ClassifierCmd] else []
  }

  function SwitchesOf(zone: Zone): CmdName {
    if zone == TurbonetZone then P4Cmd else NetworkCmd
  }

  /** The children of a command in these zones, however they are led. */
  lemma ZoneNames(server: bool, zone: Zone)
    requires InZone(zone)
    ensures var first, switches := Leading(server, zone), SwitchesOf(zone);
      && Immediate(server, zone, AddSfc) == Immediate(server, zone, DelSfc) == first + [switches]
      && Immediate(server, zone, AddSfci) == first + [SffCmd, switches]
      && Immediate(server, zone, DelSfci) == first + [SffCmd, switches, VnfCmd]
  {
  }

  lemma ForwardAllSnoc(s: Sys, p: CmdID, names: seq<CmdName>, name: CmdName, uuids: seq<CmdID>)
    requires p in s.store && p in s.family && |names| < |uuids|
    ensures var t := ForwardAll(s, p, names, uuids); var c := uuids[|names|];
      ForwardAll(s, p, names + [name], uuids) == Forward(Prepare(t, p, name, c), p, name, c)
  {
    var all := names + [name];
    assert all[..|all| - 1] == names;
    ForwardAllLast(s, p, all, uuids);
  }

  class Mediator {
    const server: bool  // the classifiers are servers
    const cm: CommandMaintainer
    ghost var hist: History
    ghost var accepted: map<CmdID, Command>
    ghost var family: map<CmdID, map<CmdName, CmdID>>
    ghost var place: map<CmdID, Place>

    ghost function State(): Sys
      reads this, cm
    {
      Sys(server, cm.commandsInfo, hist, accepted, family, place)
    }

    constructor (server: bool)
      ensures this.server == server && fresh(cm)
      ensures State() == Sys(server, map[], NOTHING_YET, map[], map[], map[])
    {
      this.server := server;
      cm := new CommandMaintainer();
      hist, accepted, family, place := NOTHING_YET, map[], map[], map[];
    }

    /** The store holds `cmd`, and `names` have been forwarded since `start`. */
    ghost predicate SentSoFar(cmd: Command, start: Sys, names: seq<CmdName>, uuids: seq<CmdID>)
      reads this, cm
    {
      && cmd.cmdID !in uuids && |names| <= |uuids|
      && cmd.cmdID in start.store && cmd.cmdID in start.family
      && State() == ForwardAll(start, cmd.cmdID, names, uuids)
      && cmd.cmdID in cm.commandsInfo && cm.commandsInfo[cmd.cmdID].cmd == cmd
    }

    /** Handles a command; `uuids` are what the generator of identifiers will return. */
    method CommandHandler(cmd: Command, uuids: seq<CmdID>)
      requires |uuids| == 4 && cmd.cmdID !in uuids
      modifies this, cm
      ensures State() == HandleCommand(old(State()), cmd, uuids)
    {
      cm.AddCmd(cmd);
      accepted, family := accepted[cmd.cmdID := cmd], family[cmd.cmdID := map[]];
      ghost var start := State();
      ProcessCmd(cmd, uuids, start);
    }

    /** Hands a command to its zone; nobody serves an unknown one. */
    method ProcessCmd(cmd: Command, uuids: seq<CmdID>, ghost start: Sys)
      requires |uuids| == 4 && SentSoFar(cmd, start, [], uuids)
      modifies this, cm
      ensures Dispatched(cmd, start, cmd.zone, uuids)
    {
      match cmd.zone {
        case SimulatorZone =>
          ProcessCmdInSimulatorZone(cmd, uuids, start);
        case TurbonetZone =>
          ProcessCmdInTurbonetZone(cmd, uuids, start);
        case PufferZone =>
          ProcessCmdInPufferZone(cmd, uuids, start);
        case UnknownZone =>
      }
    }

    method ProcessCmdInSimulatorZone(cmd: Command, uuids: seq<CmdID>, ghost start: Sys)
      requires |uuids| == 4 && SentSoFar(cmd, start, [], uuids)
      modifies this, cm
      ensures Dispatched(cmd, start, SimulatorZone, uuids)
    {
      SendChild(cmd, SimulatorCmd, uuids, 0, start, []);
      Append1([], SimulatorCmd);
    }

    /** What handling a command of a zone comes to: the children forwarded at once, and for an
        addition the VNF child prepared but kept back. */
    ghost predicate Dispatched(cmd: Command, start: Sys, zone: Zone, uuids: seq<CmdID>)
      requires |uuids| == 4 && cmd.cmdID in start.store && cmd.cmdID in start.family
      reads this, cm
    {
      var names := Immediate(server, zone, cmd.cmdType);
      State() ==
        if Deferred(zone, cmd.cmdType)
        then Prepare(ForwardAll(start, cmd.cmdID, names, uuids), cmd.cmdID, VnfCmd, uuids[|names|])
        else ForwardAll(start, cmd.cmdID, names, uuids)
    }

    method ProcessCmdInTurbonetZone(cmd: Command, uuids: seq<CmdID>, ghost start: Sys)
      requires |uuids| == 4 && SentSoFar(cmd, start, [], uuids)
      modifies this, cm
      ensures Dispatched(cmd, start, TurbonetZone, uuids)
    {
      match cmd.cmdType {
        case AddSfc => TellSwitches(cmd, TurbonetZone, uuids, 0, start);
        case AddSfci => AddSfci2Zone(cmd, TurbonetZone, uuids, 0, start);
        case DelSfci => DelSfci4Zone(cmd, TurbonetZone, uuids, 0, start);
        case DelSfc => TellSwitches(cmd, TurbonetZone, uuids, 0, start);
      }
    }

    method ProcessCmdInPufferZone(cmd: Command, uuids: seq<CmdID>, ghost start: Sys)
      requires |uuids| == 4 && SentSoFar(cmd, start, [], uuids)
      modifies this, cm
      ensures Dispatched(cmd, start, PufferZone, uuids)
    {
      var k := SendClassifier(cmd, uuids, start);
      match cmd.cmdType {
        case AddSfc => TellSwitches(cmd, PufferZone, uuids, k, start);
        case AddSfci => AddSfci2Zone(cmd, PufferZone, uuids, k, start);
        case DelSfci => DelSfci4Zone(cmd, PufferZone, uuids, k, start);
        case DelSfc => TellSwitches(cmd, PufferZone, uuids, k, start);
      }
    }

    /** The classifier goes first if it is a server. */
    method SendClassifier(cmd: Command, uuids: seq<CmdID>, ghost start: Sys) returns (k: nat)
      requires |uuids| == 4 && SentSoFar(cmd, start, [], uuids)
      modifies this, cm
      ensures SentSoFar(cmd, start, Leading(server, PufferZone), uuids) && k == |Leading(server, PufferZone)|
    {
      k := 0;
      if server {
        SendChild(cmd, ClassifierCmd, uuids, 0, start, []);
        Append1([], ClassifierCmd);
        k := 1;
      }
    }

    /** A chain comes or goes: only the switches are told. */
    method TellSwitches(cmd: Command, zone: Zone, uuids: seq<CmdID>, k: nat, ghost start: Sys)
      requires |uuids| == 4 && InZone(zone) && (cmd.cmdType == AddSfc || cmd.cmdType == DelSfc)
      requires SentSoFar(cmd, start, Leading(server, zone), uuids) && k == |Leading(server, zone)|
      modifies this, cm
      ensures Dispatched(cmd, start, zone, uuids)
    {
      SendChild(cmd, SwitchesOf(zone), uuids, k, start, Leading(server, zone));
      ZoneNames(server, zone);
    }

    /** A new instance: the forwarders and the switches are told, the functions have to wait. */
    method AddSfci2Zone(cmd: Command, zone: Zone, uuids: seq<CmdID>, k: nat, ghost start: Sys)
      requires |uuids| == 4 && InZone(zone) && cmd.cmdType == AddSfci
      requires SentSoFar(cmd, start, Leading(server, zone), uuids) && k == |Leading(server, zone)|
      modifies this, cm
      ensures Dispatched(cmd, start, zone, uuids)
    {
      SendPair(cmd, SffCmd, SwitchesOf(zone), uuids, k, start, Leading(server, zone));
      HoldBack(cmd, VnfCmd, uuids, k + 2, start, Leading(server, zone) + [SffCmd, SwitchesOf(zone)]);
      ZoneNames(server, zone);
    }

    /** Prepares a child that is not sent yet. */
    method HoldBack(
      cmd: Command, name: CmdName, uuids: seq<CmdID>, k: nat, ghost start: Sys, ghost names: seq<CmdName>)
      requires SentSoFar(cmd, start, names, uuids) && k == |names| < |uuids|
      modifies this, cm
      ensures State() == Prepare(ForwardAll(start, cmd.cmdID, names, uuids), cmd.cmdID, name, uuids[k])
    {
      PrepareChildCmd(cmd, name, uuids[k]);
    }

    /** A removal: all three are told at once. */
    method DelSfci4Zone(cmd: Command, zone: Zone, uuids: seq<CmdID>, k: nat, ghost start: Sys)
      requires |uuids| == 4 && InZone(zone) && cmd.cmdType == DelSfci
      requires SentSoFar(cmd, start, Leading(server, zone), uuids) && k == |Leading(server, zone)|
      modifies this, cm
      ensures Dispatched(cmd, start, zone, uuids)
    {
      ghost var first := Leading(server, zone);
      SendPair(cmd, SffCmd, SwitchesOf(zone), uuids, k, start, first);
      SendChild(cmd, VnfCmd, uuids, k + 2, start, first + [SffCmd, SwitchesOf(zone)]);
      Append3(first, SffCmd, SwitchesOf(zone), VnfCmd);
      ZoneNames(server, zone);
    }

    /** Two of these after each other. */
    method SendPair(
      cmd: Command, a: CmdName, b: CmdName, uuids: seq<CmdID>, k: nat, ghost start: Sys, ghost names: seq<CmdName>)
      requires SentSoFar(cmd, start, names, uuids) && k == |names| && k + 1 < |uuids|
      modifies this, cm
      ensures SentSoFar(cmd, start, names + [a, b], uuids)
    {
      SendChild(cmd, a, uuids, k, start, names);
      SendChild(cmd, b, uuids, k + 1, start, names + [a]);
      Append2(names, a, b);
    }

    /** Prepares a child command, sends it, and marks both commands as being processed: the
        common body of the source's fourteen methods that forward a command. */
    method SendChild(
      cmd: Command, name: CmdName, uuids: seq<CmdID>, k: nat, ghost start: Sys, ghost names: seq<CmdName>)
      requires SentSoFar(cmd, start, names, uuids) && k == |names| < |uuids|
      modifies this, cm
      ensures SentSoFar(cmd, start, names + [name], uuids)
    {
      var cCmdID := uuids[k];
      PrepareChildCmd(cmd, name, cCmdID);
      ForwardCmd(cmd.cmdID, name, cCmdID);
      ForwardAllSnoc(start, cmd.cmdID, names, name, uuids);
    }

    /** Sends a prepared child on its way. */
    method ForwardCmd(cmdID: CmdID, name: CmdName, cCmdID: CmdID)
      requires cCmdID in cm.commandsInfo
      modifies this, cm
      ensures State() == Forward(old(State()), cmdID, name, cCmdID)
    {
      hist := Note(hist, Forwarded(name, cCmdID, cm.commandsInfo[cCmdID].cmd));
      cm.TransitCmdState(cmdID, Waiting, Processing);
      cm.TransitCmdState(cCmdID, Waiting, Processing);
    }

    method PrepareChildCmd(cmd: Command, cCmdName: CmdName, cCmdID: CmdID)
      requires cmd.cmdID in cm.commandsInfo && cmd.cmdID in family && cm.commandsInfo[cmd.cmdID].cmd == cmd
      modifies this, cm
      ensures State() == Prepare(old(State()), cmd.cmdID, cCmdName, cCmdID)
    {
      var cCmd := cmd.(cmdID := cCmdID);
      cm.AddChildCmd2Cmd(cmd.cmdID, cCmdName, cCmdID);
      cm.AddCmd(cCmd);
      cm.AddParentCmd2Cmd(cCmdID, cmd.cmdID);
      family := family[cmd.cmdID := family[cmd.cmdID][cCmdName := cCmdID]];
      place := place[cCmdID := Place(cmd.cmdID, cCmdName)];
    }

    // ---------------------------------------------------------- replies

    /** Handles a reply.  For an id it does not know the source raises; for a second reply it
        returns at once: either way nothing changes. */
    method CommandReplyHandler(cmdRply: CmdReply)
      requires ReplyReady(State(), cmdRply)
      modifies this, cm
      ensures State() == HandleReply(old(State()), cmdRply)
    {
      var cmdID := cmdRply.cmdID;
      if cmdID !in cm.commandsInfo {
        return;
      }
      if cm.commandsInfo[cmdID].cmdReply.Some? {
        return;
      }
      cm.ChangeCmdState(cmdID, cmdRply.cmdState);
      cm.AddCmdRply(cmdID, cmdRply);
      hist := Note(hist, Answered(cmdID, cmdRply.cmdState));
      assert State() == Record(old(State()), cmdRply);
      ExeCmdStateAction(cmdID);
    }

    method ExeCmdStateAction(cmdID: CmdID)
      requires cmdID in cm.commandsInfo && cm.commandsInfo[cmdID].parentCmdID.Some?
      requires FamilyStored(cm.commandsInfo, cm.commandsInfo[cmdID].parentCmdID.value)
      modifies this, cm
      ensures var p := old(cm.commandsInfo[cmdID].parentCmdID.value);
        State() == CleanUp(React(old(State()), p, cmdID), p)
    {
      var parentCmdID := cm.commandsInfo[cmdID].parentCmdID.value;
      var successful := cm.IsParentCmdSuccessful(parentCmdID);
      var failed := cm.IsParentCmdFailed(parentCmdID);
      var waiting := cm.IsParentCmdWaiting(parentCmdID);
      if successful {
        SendParentCmdRply(parentCmdID, Successful);
      } else if failed {
        var onlyOne := cm.IsOnlyOneChildCmdFailed(parentCmdID);
        if onlyOne && cm.commandsInfo[cmdID].state == Fail {
          SendParentCmdRply(parentCmdID, Fail);
        }
      } else if waiting {
        WaitingParentCmdHandler(parentCmdID);
      }
      assert State() == React(old(State()), parentCmdID, cmdID);
      var determined := cm.IsAllChildCmdDetermined(parentCmdID);
      if determined {
        cm.DelCmdwithChildCmd(parentCmdID);
      }
    }

    /** Sets the parent's state and answers its requester. */
    method SendParentCmdRply(parentCmdID: CmdID, state: CmdState)
      requires parentCmdID in cm.commandsInfo
      modifies this, cm
      ensures State() == ReplyTo(old(State()), parentCmdID, state)
    {
      cm.ChangeCmdState(parentCmdID, state);
      hist := Note(hist, Replied(parentCmdID, state, cm.commandsInfo[parentCmdID].cmd.source));
    }

    method WaitingParentCmdHandler(parentCmdID: CmdID)
      requires FamilyStored(cm.commandsInfo, parentCmdID)
      modifies this, cm
      ensures State() == Release(old(State()), parentCmdID)
    {
      var info := cm.commandsInfo[parentCmdID];
      if info.cmd.cmdType == AddSfci && SffCmd in info.childCmdID {
        var sffState := cm.commandsInfo[info.childCmdID[SffCmd]].state;
        if sffState == Successful && VnfCmd in info.childCmdID {
          AddSFCIs2Server(parentCmdID, info.childCmdID[VnfCmd]);
        }
      }
    }

    method AddSFCIs2Server(cmdID: CmdID, cCmdID: CmdID)
      requires cCmdID in cm.commandsInfo
      modifies this, cm
      ensures
        State() ==
          if old(cm.commandsInfo[cCmdID].state) == Waiting then
            var s := old(State());
            var info := s.store[cCmdID];
            Forward(s.(store := s.store[cCmdID := info.(cmd := info.cmd.(source := "unknown"))]), cmdID, VnfCmd, cCmdID)
          else old(State())
    {
      var state := cm.commandsInfo[cCmdID].state;
      if state == Waiting {
        cm.SetSource(cCmdID, "unknown");
        hist := Note(hist, Forwarded(VnfCmd, cCmdID, cm.commandsInfo[cCmdID].cmd));
        cm.TransitCmdState(cmdID, Waiting, Processing);
        cm.TransitCmdState(cCmdID, Waiting, Processing);
      }
    }
  }
}
