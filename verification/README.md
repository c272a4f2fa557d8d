# Verified models of the SFC platform

A Dafny model of the parts of the platform where most can go wrong, with proofs of what they are
there for. `dafny verify dfyconfig.toml` checks everything.

**Routing-table compression** (`Tries`, `Ortc`, `Paths`, `BinaryTrie`, `OrtcPasses`, `RuleLookup`,
`AddressNumbers`, `UfrrTable`, `UfrrFirstStage`, `Counters`). A switch's UFRR table becomes prefix
rules, the rules a binary trie of linked nodes, and three passes over the trie rewrite it in place.
The trie is modelled twice: as a value (`Ortc`), where compression is proved to keep every
longest-prefix-match answer (section 5.1 of RFC 4632) and to be optimal, and as objects with parent
and child pointers (`BinaryTrie`, `OrtcPasses`), whose methods are proved to compute exactly that
value. From there the result reaches back to the table the switch was given: what an address is,
which rule it gets, and where a walk along the pointers leads, all said by division and remainder.

**Mediator** (`MediatorModel`, `MediatorInvariant`, `MediatorSteps`, `MediatorRuns`,
`MediatorTheorems`, `MediatorOrder`, `MediatorExamples`, `MediatorMessages`, `MediatorTurns`,
`Mediator`). A command fans out to child commands, each a copy of it; replies come in any order and
may be repeated. The protocol is a transition system with a log of what was sent and heard; the
order of the log decides which families are left over. The command store and the handlers are
classes proved to take its transitions.

**Simulator** (`SimulatorModel`, `SimulatorJobs`, `SimulatorRuns`, `SimulatorFlows`,
`SimulatorTheorems`, `SimulatorChecks`, `SimulatorHosts`, `SimulatorCancels`, `SimulatorRefusals`,
`Simulator`). Installing and removing chain instances moves counters, next-hop tables, link users,
server lists and flows. Hops are added to and taken from a ledger; runs of accepted additions and
removals are proved to leave the books of the live instances. Which requests pass the checks, and
what a refused addition leaves behind, is given exactly.

**Paths, zones and numbers** (`Nodes`, `StagePaths`, `LayerGraphs`, `PathComputer`, `BackupNumbers`,
`NodeNames`, `ShortestPathTree`, `ZonePartition`, `Labels`). The multi-layer graph, shortest chains
through it and their split into stages, backup paths, next hops from shortest paths, the division of
a fat tree among orchestrators, and the allocation of least free labels.

Where the source iterates over `items()` of a dictionary it changes, the model takes Python 2's
reading: the loop runs over a snapshot. Where a dictionary's order decides, any order is allowed.
Values that come from elsewhere are parameters: identifiers the generator returns, replies, the
shortest paths a graph library finds.

Things the code does that a reader may not expect, each stated by a lemma:

- Triples share an address exactly if their keys agree modulo the sizes of the fields
  (`SameAddress`). In IPv4 the path id has four bits, so backup paths 2 and 18 of a chain clash
  (`PathIdsClashInV4`, and `ClashingBackups` builds such a table); the compressed trie is right
  exactly for tables where no such pair disagrees (`ForwardsIffAgreeing`).
- Merging in the first stage keeps an entry's output; an entry that had more actions than its
  output loses them (`MergedForwards`).
- The order of replies decides whether an addition of an instance, in a zone with forwarders, is
  ever deleted. If some child fails before the forwarders have reported success, the VNF child is
  never sent and the family stays in the mediator's store for ever; otherwise it is deleted once
  all have answered. So is the family of any other command, except for a zone nobody serves,
  which stays as well (`QuietLeftovers`, `StuckIffFailedEarly`, `StuckForever`, `DoomedExactly`;
  `FailureFirst` and `SuccessFirst` are the same replies in both orders).
- An addition that is refused changes nothing if and only if its checks refuse it, or it has no
  functions and the first switch of its first path is full (`UnchangedExactly`). Else functions
  stay on their servers, or the hops before the full switch stay charged (`RefusedAddLeaves`);
  what stays can make a later addition fail that had been accepted before (`RefusalCosts`).
- Core switches are shared out exactly once only with one orchestrator or one for each pod
  (`CoreOnceExactly`, `CoreMissed`).
- The label bound lets 2^20 pass, which does not fit the 20 bits of a label (section 2.1 of
  RFC 3032) (`LabelFits`); assigning to a pair that has a label leaks the old one
  (`AssignMPLSLabel`); a list with a negative number can yield a taken 0
  (`GenAvailableMiniNum4List`).

## Model

| member | source | states |
|---|---|---|
| `Ortc.CompressIsMinimal` | sam/ryu/ufrrIBMaintainer.py:344-449 | no labelled binary trie of any shape up to the address width that answers every address alike has fewer entries than the compressed one |
| `Ortc.CompressKeepsAnswers` | sam/ryu/ufrrIBMaintainer.py:344-449 | every address gets the same longest-prefix-match answer before and after compression |
| `Ortc.CompressTwice` | sam/ryu/ufrrIBMaintainer.py:344-449 | compressing again changes neither an answer nor the number of entries |
| `Ortc.CompressShape` | sam/ryu/ufrrIBMaintainer.py:344-449 | the result is again a trie that can be compressed, and no taller than the input |
| `Ortc.PrevalentMeaning` | sam/ryu/ufrrIBMaintainer.py:395-420 | a next hop is in a pass-two set exactly when a smallest table of the region exists below it; outside the set the smallest table has exactly one entry more |
| `Ortc.ExpandIsFull` | sam/ryu/ufrrIBMaintainer.py:369-384 | after pass one every node has no or two children and the height has not grown |
| `Ortc.ExpandAnswers` | sam/ryu/ufrrIBMaintainer.py:369-384 | the leaf that an address reaches after pass one holds the answer the address had before |
| `Ortc.ChooseCorrect` | sam/ryu/ufrrIBMaintainer.py:430-449 | after pass three every address gets the next hop of its leaf of pass one |
| `Ortc.ChooseCost` | sam/ryu/ufrrIBMaintainer.py:430-449 | below any inherited next hop, pass three uses exactly the cost that the pass-two sets predict |
| `Ortc.ChooseRootCost` | sam/ryu/ufrrIBMaintainer.py:430-449 | at the root, where nothing is inherited, pass three uses one entry more than is merged below |
| `Ortc.LowerBound` | sam/ryu/ufrrIBMaintainer.py:395-449 | no table of any shape does with fewer entries than that cost |
| `OrtcPasses.CompressByORTC` | sam/ryu/ufrrIBMaintainer.py:344-356 | the three passes, run in place on the linked nodes, give exactly the compressed trie; answers are kept and the entry count is minimal; parent and child pointers stay consistent |
| `OrtcPasses.PassOne` | sam/ryu/ufrrIBMaintainer.py:358-367 | pass one in place is the expansion of the trie |
| `OrtcPasses.PreOrderTraversalToExpandTrie` | sam/ryu/ufrrIBMaintainer.py:369-384 | the traversal terminates although it grows the tree, expands one subtrie, and touches nothing outside it |
| `OrtcPasses.FillNode` | sam/ryu/ufrrIBMaintainer.py:371-376 | a node with one child gets the other one, without a next hop |
| `OrtcPasses.PushNode` | sam/ryu/ufrrIBMaintainer.py:378-380 | a node without a next hop takes the nearest one above |
| `OrtcPasses.PassTwo` | sam/ryu/ufrrIBMaintainer.py:386-393 | pass two in place computes the prevalent sets |
| `OrtcPasses.PostOrderTraversalToFindPrevalentNextHop` | sam/ryu/ufrrIBMaintainer.py:395-420 | the bottom-up traversal computes the prevalent sets of one subtrie and touches nothing outside it |
| `OrtcPasses.PassThree` | sam/ryu/ufrrIBMaintainer.py:422-428 | pass three in place is the top-down choice |
| `OrtcPasses.PreOrderTraversalToChooseNextHop` | sam/ryu/ufrrIBMaintainer.py:430-441 | the top-down traversal chooses, or erases inherited next hops, in one subtrie and touches nothing outside it |
| `OrtcPasses.ChooseNextHop` | sam/ryu/ufrrIBMaintainer.py:432-436 | at one node: nothing if the inherited next hop is in the set, else its least element |
| `Ortc.Least` | sam/ryu/ufrrIBMaintainer.py:443-449 | the chosen next hop is in the set and no other is smaller |
| `BinaryTries.BinaryTrie.constructor` | sam/ryu/binaryTrie.py:62-87 | the default is a most frequent next hop of the rules, and the trie refines the rule list |
| `BinaryTries.BinaryTrie.FindMostNexthop` | sam/ryu/binaryTrie.py:75-87 | no next hop occurs more often than the one found; none is found only without rules |
| `Counters.MaxKey` | sam/ryu/binaryTrie.py:84-85 | a key with the greatest count, whichever the dictionary yields first |
| `BinaryTries.BinaryTrie.ConstructBinaryTrie` | sam/ryu/binaryTrie.py:89-137 | the linked trie holds exactly the positions on the rules' paths, each with the next hop of the first rule that ends there |
| `BinaryTries.BinaryTrie.InsertRule` | sam/ryu/binaryTrie.py:95-137 | inserting one rule walks its bits from the highest to the lowest, right for 1, and keeps the first rule for an equal prefix, in any order of short and long prefixes |
| `BinaryTries.BinaryTrie.StepDown` | sam/ryu/binaryTrie.py:103-137 | one step of an insertion: hangs a missing node, fills an empty one, leaves a taken one |
| `BinaryTries.BinaryTrie.AddLeftChild` | sam/ryu/binaryTrie.py:109-120 | a new left child points to its parent and nothing else of the trie changes |
| `BinaryTries.BinaryTrie.AddRightChild` | sam/ryu/binaryTrie.py:109-131 | a new right child points to its parent and nothing else of the trie changes |
| `BinaryTries.BinaryTrie.GetInherited` | sam/ryu/binaryTrie.py:173-182 | climbing the parent pointers finds the nearest next hop above |
| `BinaryTries.BinaryTrie.IsInheritedInNexthopSet` | sam/ryu/binaryTrie.py:200-202 | whether that next hop is in the node's set |
| `BinaryTries.BinaryTrie.CountRules` | sam/ryu/binaryTrie.py:146-158 | the count is the number of labelled nodes of the whole trie |
| `BinaryTries.BinaryTrie.PreOrderTraversalToCountNextHop` | sam/ryu/binaryTrie.py:151-158 | the traversal adds the labelled nodes of one subtrie |
| `RuleLookup.LookupIsLongestMatch` | sam/ryu/binaryTrie.py:89-141 | looking up any address in the trie gives the longest matching rule of length at least 1, the earliest among equal prefixes, else the default |
| `AddressNumbers.WalkGetsLongest` | sam/ryu/binaryTrie.py:62-141 | in a trie just built, following the child pointers by the digits of any number, the highest first and right where it is 1, gives the hop of the longest rule whose low bits are the number's high bits, the earliest among equal prefixes, else the default |
| `AddressNumbers.NumberGetsLongest` | sam/ryu/binaryTrie.py:89-141 | the same of the trie as a value |
| `AddressNumbers.FollowIsLookup` | sam/ryu/binaryTrie.py:140-141 | at any node of a linked trie the pointers lead where the trie they stand for says |
| `AddressNumbers.BitIsDigit` | sam/ryu/binaryTrie.py:140-141 | a bit of a number, negative or not, is what division by its power of two and the remainder by 2 give |
| `AddressNumbers.BitsReadBack` | sam/ryu/binaryTrie.py:140-141 | the bits of a number read back, the highest first, are its low bits |
| `AddressNumbers.SameByNumber` | sam/ryu/ufrrIBMaintainer.py:344-449 | two tries answer all addresses alike if and only if they answer all numbers alike |
| `RuleLookup.RefinesRooted` | sam/ryu/binaryTrie.py:62-73 | a trie built from rules is one the three passes accept |
| `UfrrTables.UFRRIBMaintainer.AddSFCIUFRRFlowTableEntry` | sam/ryu/ufrrIBMaintainer.py:38-66 | exactly the entry of the triple, in the order the encoding asks for, is set; an unknown encoding changes nothing |
| `UfrrTables.UFRRIBMaintainer.GenerateRules` | sam/ryu/ufrrIBMaintainer.py:296-333 | one rule for each stored triple that names an output, and no others: as long as the address, with 10 in the highest 8 bits and then the three keys modulo the sizes of their fields, and the triple's output as next hop |
| `UfrrTables.UFRRIBMaintainer.RulesOfFirstKey` | sam/ryu/ufrrIBMaintainer.py:299-333 | the same of the triples with one first key |
| `UfrrTables.UFRRIBMaintainer.RulesOfSecondKey` | sam/ryu/ufrrIBMaintainer.py:300-333 | the same of the triples with one first and second key |
| `UfrrTables.FieldsAreCode` | sam/ryu/ufrrIBMaintainer.py:315-333 | the address of a triple is the one number whose fields, by division and remainder, are 10 and the keys modulo the sizes of the fields |
| `UfrrTables.CodeInRange` | sam/ryu/ufrrIBMaintainer.py:315-333 | every encoded address fits the address width |
| `UfrrTables.CodeInjective` | sam/ryu/ufrrIBMaintainer.py:315-333 | triples whose keys fit the fields (40/40/40 bits, or 8/12/4 bits) have different addresses |
| `UfrrTables.AnswerIsStored` | sam/ryu/ufrrIBMaintainer.py:296-333 | what the rules answer for the address of a stored triple is the output of a stored triple with the same fields |
| `UfrrTables.ForwardsIffAgreeing` | sam/ryu/ufrrIBMaintainer.py:296-356 | a trie with the rules' answers leads the address of every stored triple to its output if and only if triples with the same fields name the same output |
| `UfrrTables.FittingKeysAgree` | sam/ryu/ufrrIBMaintainer.py:315-333 | keys that fit their fields never share an address |
| `UfrrTables.SameAddress` | sam/ryu/ufrrIBMaintainer.py:315-333 | triples share an address if and only if their keys agree modulo the sizes of the fields |
| `UfrrTables.PathIdsClashInV4` | sam/ryu/ufrrIBMaintainer.py:324-332 | path ids of one chain that agree modulo 16 clash in IPv4: a table that sends them to different nodes is not forwarded as stored |
| `UfrrTables.ClashingBackups` | sam/ryu/ufrrIBMaintainer.py:38-66 | a table with backup paths 2 and 18 of one chain can be built, and its compressed trie does not forward both |
| `UfrrTables.UFRRIBMaintainer.CompressSwitchByORTC` | sam/ryu/ufrrIBMaintainer.py:282-356 | end to end: in the compressed trie of a switch every number walks to the hop of its longest rule; the addresses of all stored triples lead to their outputs if and only if triples with the same fields agree; and the trie is minimal |
| `UfrrTables.UFRRIBMaintainer.CompressedWalks` | sam/ryu/ufrrIBMaintainer.py:282-356 | the same along the pointers of the compressed trie, node by node |
| `UfrrTables.UFRRIBMaintainer.CompressAllSwitchesUFRRTableByORTC` | sam/ryu/ufrrIBMaintainer.py:282-342 | every switch with a table gets a trie, and every trie is compressed with these promises |
| `UfrrFirstStage.FindFirstKeyTableTheMostFrequentOutput` | sam/ryu/ufrrIBMaintainer.py:103-130 | the output found is one that most entries send to; none only if no entry names an output |
| `UfrrFirstStage.MergeRow` | sam/ryu/ufrrIBMaintainer.py:138-144 | exactly the entries of a row that send to the output are popped |
| `UfrrFirstStage.MergeEntry4FirstStage` | sam/ryu/ufrrIBMaintainer.py:132-153 | rows that become empty vanish, the others keep exactly their other entries, and the wildcard entry is set |
| `UfrrFirstStage.CompressFirstStage` | sam/ryu/ufrrIBMaintainer.py:90-101 | every first key's table is merged for a most frequent output, or kept if it names none |
| `UfrrFirstStage.MergedForwards` | sam/ryu/ufrrIBMaintainer.py:132-153 | lookup keeps the output of every stored entry, and the whole actions if and only if the entry stayed or consisted of its output |
| `UfrrFirstStage.FirstStageKeeps` | sam/ryu/ufrrIBMaintainer.py:90-154 | whatever output was chosen, exact then wildcard lookup gives every stored entry's output and the table has not grown |
| `UfrrFirstStage.MergedIsSmallest` | sam/ryu/ufrrIBMaintainer.py:120-153 | no other single wildcard output gives a smaller table, and the table does not grow |
| `UfrrFirstStage.MergedSize` | sam/ryu/ufrrIBMaintainer.py:132-153 | merging trades the entries of the output for one wildcard entry |
| `MediatorTheorems.RunKeepsInv` | sam/mediator/mediator.py:55-148 | every run of commands and replies, in any order and duplicated, keeps the store linked and every family as it should be |
| `MediatorTheorems.ExactlyOneAnswer` | sam/mediator/mediator.py:401-458 | at every moment of every run a requester has been told FAIL once if a child failed, SUCCESSFUL once if all children succeeded, else nothing; each child was sent at most once; a family is deleted exactly when all its children answered |
| `MediatorTheorems.HistoryIsLog` | sam/mediator/mediator.py:401-458 | what the proofs call sent, answered and replied is what the log of sends and replies says |
| `MediatorMessages.EveryMessage` | sam/mediator/mediator.py:138-160 | every message ever sent to a child is a copy of the command of its parent under the child's own id; the requester is given as it was, except to the VNF child of an addition that had to wait, where it is "unknown" |
| `MediatorMessages.EveryStoredChild` | sam/mediator/mediator.py:138-148 | so is every stored child at every moment; the requester becomes "unknown" exactly when a VNF child that had to wait is sent |
| `MediatorMessages.EveryReply` | sam/mediator/mediator.py:426-502 | every reply to a command goes to whoever sent the command |
| `MediatorMessages.WhoIsTold` | sam/mediator/mediator.py:55-136 | which components are told of a command, component by component: forwarders and functions of instances, the switches of the zone of everything, classifiers only in one zone and if they are servers |
| `MediatorMessages.ToldOfBoth` | sam/mediator/mediator.py:75-136 | whoever is told of an addition is told of the removal |
| `MediatorTurns.ToldInTurn` | sam/mediator/mediator.py:75-136 | in every run the children of a command are told in the same order, classifiers, forwarders, switches, functions, and none twice |
| `MediatorOrder.StuckIffFailedEarly` | sam/mediator/mediator.py:426-510 | in every reachable state an addition's VNF child is stuck if and only if the log has a failed child before any success of the forwarders |
| `MediatorOrder.QuietLeftovers` | sam/mediator/mediator.py:426-510 | when everyone who was sent a command has answered, what is left in the store are exactly the additions (in a zone with forwarders) one of whose children failed no later than the forwarders first replied, and commands for an unserved zone |
| `MediatorOrder.EarlyIsNoLater` | sam/mediator/mediator.py:404-424 | of forwarders that have replied, failing before their success and failing no later than their first reply are the same |
| `MediatorTheorems.FailureFreeEndsEmpty` | sam/mediator/mediator.py:426-458 | a quiet run without failures over served zones leaves an empty store and one SUCCESSFUL for each requester |
| `MediatorTheorems.StuckForever` | sam/mediator/mediator.py:426-510 | a stuck addition, and a command for an unserved zone, is in the store after every further run |
| `MediatorExamples.DoomedExactly` | sam/mediator/mediator.py:426-510 | at every moment of every run some further run deletes a family if and only if it is not one of those |
| `MediatorExamples.FailureFirst` | sam/mediator/mediator.py:426-510 | an addition, the switches' failure, then the forwarders' success: a legal run that leaves the addition for ever |
| `MediatorExamples.SuccessFirst` | sam/mediator/mediator.py:426-510 | the same replies in the other order, then the functions' reply: the addition is deleted |
| `MediatorTheorems.VnfRule` | sam/mediator/mediator.py:251-268 | the VNF child of a new instance was sent only if the forwarders reported success, and exactly once if besides nobody failed |
| `MediatorTheorems.VnfReleasedWithoutFailure` | sam/mediator/mediator.py:504-510 | the step that sends it is a reply, and no child of the family has failed by then |
| `MediatorInvariant.AnswerKeepsFamily` | sam/mediator/mediator.py:401-458 | any answer to a child in progress keeps its family right: replies, states, and whether it is stored |
| `MediatorInvariant.FirstFailure` | sam/base/commandMaintainer.py:107-116 | the test for exactly one failed child recognises the first failure and no later one |
| `MediatorRuns.CommandKeepsInv` | sam/mediator/mediator.py:55-148 | accepting a command with fresh identifiers keeps the invariant |
| `MediatorRuns.ReplyKeepsInv` | sam/mediator/mediator.py:401-458 | every legal reply, also a repeated or late one, keeps the invariant |
| `MediatorRuns.ReplyMovesFamily` | sam/mediator/mediator.py:426-458 | a reply moves the family of its child and no other |
| `MediatorSteps.PrepareMoves` | sam/mediator/mediator.py:138-148 | a new child is linked with its parent both ways, and no other family changes |
| `MediatorSteps.DeleteMoves` | sam/base/commandMaintainer.py:34-37 | deleting a parent removes exactly it and its children; no identifier dangles |
| `MediatorSteps.ForwardMoves` | sam/mediator/mediator.py:154-160 | forwarding is seen by one child of one family only |
| `Mediators.Mediator.CommandHandler` | sam/mediator/mediator.py:55-73 | handling a command in place is the transition of the protocol model |
| `Mediators.Mediator.ProcessCmdInTurbonetZone` | sam/mediator/mediator.py:75-93 | which children a command gets in this zone, in which order, and which one waits |
| `Mediators.Mediator.ProcessCmdInPufferZone` | sam/mediator/mediator.py:95-136 | the same for the other zone, where classifiers that are servers come first |
| `Mediators.Mediator.SendChild` | sam/mediator/mediator.py:154-205 | one forwarding method: the child is prepared as a copy of its parent's command and sent, and both commands are marked |
| `Mediators.Mediator.PrepareChildCmd` | sam/mediator/mediator.py:138-148 | a copy of the command under the child's id is stored and linked both ways |
| `Mediators.Mediator.AddSFCIs2Server` | sam/mediator/mediator.py:251-268 | the waiting VNF child is sent and marked |
| `Mediators.Mediator.CommandReplyHandler` | sam/mediator/mediator.py:401-424 | handling a reply in place is the transition of the protocol model; a second reply changes nothing |
| `Mediators.Mediator.ExeCmdStateAction` | sam/mediator/mediator.py:426-458 | what a reply sets off in place: answer, release or nothing, and deletion |
| `Mediators.Mediator.SendParentCmdRply` | sam/mediator/mediator.py:426-502 | the reply is logged with the requester it goes to |
| `Mediators.Mediator.WaitingParentCmdHandler` | sam/mediator/mediator.py:504-510 | the VNF child goes out exactly when an instance is being added and the forwarders reported success |
| `Mediators.CommandMaintainer.DelCmdwithChildCmd` | sam/base/commandMaintainer.py:34-37 | the store loses exactly the command and its children |
| `Mediators.CommandMaintainer.TransitCmdState` | sam/base/commandMaintainer.py:54-58 | the state moves on only from the expected one |
| `Mediators.CommandMaintainer.IsParentCmdSuccessful` | sam/base/commandMaintainer.py:91-97 | true exactly if every child succeeded |
| `Mediators.CommandMaintainer.IsParentCmdFailed` | sam/base/commandMaintainer.py:99-105 | true exactly if some child failed |
| `Mediators.CommandMaintainer.IsOnlyOneChildCmdFailed` | sam/base/commandMaintainer.py:107-116 | true exactly if one child failed |
| `Mediators.CommandMaintainer.IsAllChildCmdDetermined` | sam/base/commandMaintainer.py:118-124 | true exactly if every child succeeded or failed |
| `Mediators.CommandMaintainer.IsParentCmdWaiting` | sam/base/commandMaintainer.py:126-131 | true exactly if some child waits |
| `SimulatorTheorems.BooksOfRun` | sam/simulator/command_handler.py:122-292 | after every run of accepted additions and of removals the ledger and the servers' lists are the initial ones plus those of the live instances, and nothing else |
| `SimulatorTheorems.NextOfRun` | sam/simulator/command_handler.py:212-246 | after every run a live instance can be removed, and a new one is accepted if and only if the checks pass and on each switch its hops fit the free table space |
| `SimulatorChecks.ChecksMean` | sam/simulator/command_handler.py:36-210 | a request passes the checks if and only if it is sound stage by stage: gates and hosts are of the right kind, and each stage leads through switches, by links that suit its ends, from the function before it to the one after it, in opposite order in the second direction |
| `SimulatorChecks.AcceptedPaths` | sam/simulator/command_handler.py:152-210 | in an accepted addition each direction leads from its ingress to its egress; the stages of the first meet at the nodes of the functions in order, those of the second in the opposite order |
| `SimulatorChecks.PassesBothWays` | sam/simulator/command_handler.py:152-210 | where links go both ways, an instance of one direction passes the checks if and only if it does with the way back as second direction |
| `SimulatorTheorems.TablesOfRun` | sam/simulator/command_handler.py:229-243 | each switch has used one unit for each entry beyond the initial ones, and these entries are exactly the live instances' hops that start there |
| `SimulatorTheorems.LinksOfRun` | sam/simulator/command_handler.py:244-255 | a link's users beyond the initial ones are exactly the (instance, direction, stage, hop) that cross it |
| `SimulatorHosts.HostsOfRun` | sam/simulator/command_handler.py:215-228 | after every run the list of a node has, behind the initial records, exactly the functions of the live instances that name this node, each once, with its stage |
| `SimulatorTheorems.NeverOverfull` | sam/simulator/command_handler.py:237-242 | no run uses more table space than a switch has |
| `SimulatorCancels.AddRemoveCancels` | sam/simulator/command_handler.py:54-107 | adding an instance and removing it, with any other additions and removals in between, leaves tables, links, lists, stored instances and the directions that have a flow as if neither had happened |
| `SimulatorCancels.AddThenRemove` | sam/simulator/command_handler.py:54-107 | removing the instance just added brings back ledger, lists, instances and flows exactly; the chain stays known |
| `SimulatorCancels.PairsOfRun` | sam/simulator/command_handler.py:257-273 | after every run an instance has a flow for a direction if and only if it had one at the start or is live and has that direction |
| `SimulatorCancels.SameStored` | sam/simulator/command_handler.py:253-255 | two runs that leave the same live instances store the same instances |
| `SimulatorRefusals.SmallRun` | sam/simulator/command_handler.py:121-275 | in a network of two switches an instance of any number is accepted, so the runs these results speak of exist |
| `SimulatorRefusals.UnchangedExactly` | sam/simulator/command_handler.py:121-275 | an addition of an instance the base knows nothing of changes nothing if and only if the checks refuse it, or it has no functions and the switch its first path starts at is full |
| `SimulatorRefusals.UnchangedOfRun` | sam/simulator/command_handler.py:121-275 | the same for a new instance after every run |
| `SimulatorRefusals.RefusedAddLeaves` | sam/simulator/command_handler.py:215-240 | what an addition refused for lack of table space leaves: all its functions on their servers, and exactly the hops before the first full switch charged; instances, flows and chains are as before |
| `SimulatorRefusals.RefusalCosts` | sam/simulator/command_handler.py:215-240 | a refused addition to a concrete network leaves an entry that makes the next addition fail, which would have been accepted before |
| `SimulatorTheorems.FlowsOfRun` | sam/simulator/command_handler.py:257-273 | after every run each live instance has one flow for each direction, each flow belongs to a stored instance, and initial flows are untouched |
| `SimulatorTheorems.StoredOfRun` | sam/simulator/command_handler.py:253-255 | after every run each live instance is stored as it was added |
| `SimulatorFlows.AddOpensFlows` | sam/simulator/command_handler.py:257-273 | an accepted addition opens one new flow for each direction and keeps all others |
| `SimulatorFlows.RemoveClosesFlows` | sam/simulator/command_handler.py:103-107 | a removal closes exactly the flows of the instance |
| `SimulatorJobs.ChargeAllExactly` | sam/simulator/command_handler.py:229-255 | charging succeeds if and only if on each switch the hops fit, and then has added every hop |
| `SimulatorJobs.DirLinked` | sam/simulator/command_handler.py:171-210 | once the path checks pass, every hop of every path has a link or stays on its node |
| `SimulatorJobs.PlaceAppends` | sam/simulator/command_handler.py:217-228 | each server's list grows by the instance's functions placed there, in order |
| `SimulatorJobs.UnplaceRemoves` | sam/simulator/command_handler.py:65-76 | taking them away leaves exactly the other records, in order |
| `SimulatorJobs.NextTraffic` | sam/simulator/command_handler.py:258-262 | the next flow id is 0, or one above the greatest in use |
| `SimulatorJobs.FindRecord` | sam/simulator/command_handler.py:69-74 | the first record of the instance's stage and type |
| `SimulatorModel.PlusMinus` | sam/simulator/command_handler.py:77-107 | releasing a hop just charged restores tables and links |
| `SimulatorModel.PlusAllThenMinusAll` | sam/simulator/command_handler.py:77-107 | charging some hops and releasing others commute |
| `SimulatorModel.PlusAllMinusAll` | sam/simulator/command_handler.py:77-107 | releasing all hops that were charged restores tables and links |
| `SimulatorRuns.DischargeMiddle` | sam/simulator/command_handler.py:77-102 | releasing one instance's hops from among others never fails and leaves the others' |
| `SimulatorRuns.AddBooks` | sam/simulator/command_handler.py:212-273 | an accepted addition makes the instance the youngest live one |
| `SimulatorRuns.RemoveBooks` | sam/simulator/command_handler.py:54-107 | a removal of any live instance succeeds and leaves the books of the others |
| `Simulators.SimulatorInfoBase.AddSfciHandler` | sam/simulator/command_handler.py:120-275 | the handler's loops in place compute the addition of the ledger model, also when it is refused half way |
| `Simulators.SimulatorInfoBase.ChargeHop` | sam/simulator/command_handler.py:235-255 | one turn of the innermost loop of adding |
| `Simulators.SimulatorInfoBase.ChargeDirections` | sam/simulator/command_handler.py:229-255 | the nested loops charge the hops of all directions, stages and paths in order, up to the first refusal |
| `Simulators.SimulatorInfoBase.PlaceVnfis` | sam/simulator/command_handler.py:215-228 | the loop places the functions of the first direction |
| `Simulators.SimulatorInfoBase.OpenAll` | sam/simulator/command_handler.py:257-273 | the loop opens one flow for each direction |
| `Simulators.SimulatorInfoBase.RecordSfci` | sam/simulator/command_handler.py:252-273 | chain, instance and flows are stored |
| `Simulators.SimulatorInfoBase.RemoveSfciFromBase` | sam/simulator/command_handler.py:54-107 | the removal's loops in place compute the removal of the ledger model, also when it raises half way |
| `Simulators.SimulatorInfoBase.DischargeHop` | sam/simulator/command_handler.py:84-102 | one turn of the innermost loop of removing |
| `Simulators.SimulatorInfoBase.DischargeDirections` | sam/simulator/command_handler.py:77-102 | the nested loops release the hops of all directions in order, up to the first error |
| `Simulators.SimulatorInfoBase.UnplaceVnfis` | sam/simulator/command_handler.py:65-76 | the loop takes the functions off their servers |
| `Simulators.SimulatorInfoBase.CloseFlows` | sam/simulator/command_handler.py:104-106 | exactly the flows of the instance are popped |
| `Simulators.SimulatorInfoBase.DelSfciHandler` | sam/simulator/command_handler.py:278-284 | removing an instance on request is the removal |
| `Simulators.SimulatorInfoBase.DelSfcHandler` | sam/simulator/command_handler.py:287-297 | deleting a chain removes exactly its instances, in any order, and leaves the books of all others |
| `PathComputers.PathComputer.GenMultiLayerGraph` | sam/orchestration/pathComputer.py:50-84 | the edges are links in some layer, a server and its switch in a layer that needs the server (ingress at the bottom, egress at the top, hosts of the stages next to it), and hosts climbing one layer, and no others; refused exactly if the ingress, the egress or a host that is a server has no switch |
| `PathComputers.PathComputer.GenOneLayer` | sam/orchestration/pathComputer.py:60-122 | one layer has exactly its links and, both ways, the servers it needs with their switches |
| `PathComputers.PathComputer.AddEdgeSwitch2Server` | sam/orchestration/pathComputer.py:86-122 | exactly the servers of a stage are joined with their switches, both ways |
| `PathComputers.PathComputer.ConnectLayers` | sam/orchestration/pathComputer.py:138-149 | exactly the hosts of a stage are joined with themselves one layer up |
| `PathComputers.PathComputer.TransPath2MultiStagePath` | sam/orchestration/pathComputer.py:151-165 | stage by stage the nodes of the path in that layer, in order, a single node written twice |
| `StagePaths.SplitIsChain` | sam/orchestration/pathComputer.py:151-165 | a path from its layer to the top splits into non-empty stages along edges of their layers, each ending at a host of its stage where the next one starts |
| `StagePaths.ChainIsPath` | sam/orchestration/pathComputer.py:151-165 | the converse: the stages of any such chain, each in its layer, are a path of the graph |
| `StagePaths.SplitLosesNothing` | sam/orchestration/pathComputer.py:151-165 | the stages put together are the path |
| `PathComputers.PathComputer.MapPrimaryFP` | sam/orchestration/pathComputer.py:27-48 | the primary path is a way through the network from the ingress over hosts of the stages in order to the egress, and none has fewer nodes; refused exactly if a server has no switch or there is no such way |
| `PathComputers.PathComputer.ChainIsTour` | sam/orchestration/pathComputer.py:50-165 | the chains through the multi-layer graph are exactly these ways through the network |
| `PathComputers.PathComputer.LinksSuffice` | sam/orchestration/pathComputer.py:27-149 | there is such a way whenever, for some choice of hosts, links lead from the switch of each to the switch of the next, from the ingress to the egress |
| `PathComputers.PathComputer.GenMultiStagePath` | sam/orchestration/pathComputer.py:213-223 | a found path is split into a chain; stages below the start are empty |
| `PathComputers.PathComputer.PruneNullListInMultiStagePath` | sam/orchestration/pathComputer.py:225-230 | exactly the empty stages are removed, in order |
| `PathComputers.PathComputer.DeleteNodeInMLG` | sam/orchestration/pathComputer.py:204-211 | the node and its edges are gone from every layer, nothing else |
| `PathComputers.PathComputer.BackupHop` | sam/orchestration/pathComputer.py:175-191 | a hop gets a backup exactly if a path around its second node is found and no earlier hop with these nodes has one; the backup never visits that node in any layer |
| `PathComputers.PathComputer.ProtectedExactly` | sam/orchestration/pathComputer.py:167-223 | the search around a hop succeeds if and only if the network has a way on from its first node without its second, and what it finds is no longer than any of them |
| `PathComputers.PathComputer.BackupsExactly` | sam/orchestration/pathComputer.py:167-202 | a pair of nodes has a backup if and only if it is a hop, of a stage that does not have two nodes, around which the network has a way; the backup is a shortest one |
| `PathComputers.PathComputer.MapBackupFP` | sam/orchestration/pathComputer.py:167-202 | the table holds exactly these backups for all hops of stages that do not have two nodes, numbered from 2 without a gap |
| `PathComputers.PathComputer.NumberBackups` | sam/orchestration/pathComputer.py:193-198 | each backup has its own number, from 2 on without a gap |
| `NodeNames.NameRead` | sam/orchestration/pathComputer.py:135-136 | a node name read back gives the node id and the layer it was made of |
| `ShortestPathTrees.Stsp2spt` | sam/ryu/westEastRouting.py:84-105 | every source but the target has a next hop, a neighbour one step nearer to the target; without one there is no map; the lists are left reversed |
| `ShortestPathTrees.TakePath` | sam/ryu/westEastRouting.py:94-101 | one path fills in next hops where none was known and overwrites none |
| `ShortestPathTrees.FollowedIsShortest` | sam/ryu/westEastRouting.py:84-105 | following next hops from any source is a shortest path to the target and meets no node twice, also where equal-cost paths disagree |
| `ShortestPathTrees.SuffixShortest` | sam/ryu/westEastRouting.py:76-82 | the rest of a shortest path is as long as the path the library gives for where it starts |
| `ZonePartitions.OrchestratorManager.SplitInteger` | sam/dispatcher/orchestratorManager/orchestratorManager.py:166-191 | the parts add up to the number and differ by at most 1, larger ones last; refused exactly if there are more parts than units or none |
| `ZonePartitions.OrchestratorManager.ComputeOrchInstanceInfoList` | sam/dispatcher/orchestratorManager/orchestratorManager.py:146-164 | the pod intervals follow one another and have the sizes of the split |
| `ZonePartitions.PodsCovered` | sam/dispatcher/orchestratorManager/orchestratorManager.py:146-164 | every pod belongs to exactly one orchestrator |
| `ZonePartitions.ZonesInside` | sam/dispatcher/orchestratorManager/orchestratorManager.py:146-164 | every orchestrator has a pod and only pods there are |
| `ZonePartitions.Orchestrator.PrepareSubZoneSwitchesIdxInfo` | sam/orchestration/orchestrator.py:426-448 | the index fields describe exactly the core, aggregation and top-of-rack switches of the zone |
| `ZonePartitions.Orchestrator.IsSwitchInSubTopologyZone` | sam/orchestration/orchestrator.py:454-462 | true exactly for the zone's switches |
| `ZonePartitions.PodSwitchesCovered` | sam/orchestration/orchestrator.py:443-462 | every aggregation and every top-of-rack switch belongs to exactly one orchestrator |
| `ZonePartitions.CoreOnceExactly` | sam/orchestration/orchestrator.py:434-438 | every core switch belongs to exactly one orchestrator if and only if there is one orchestrator or one for each pod |
| `ZonePartitions.CoreMissed` | sam/orchestration/orchestrator.py:434-438 | with fewer orchestrators than pods, but more than one, a named core switch belongs to none |
| `Labels.GenAvailableMiniNum4List` | sam/base/xibMaintainer.py:16-30 | the number is the least free one if and only if the list has no negative number or no 0; at most the length of the list; the list is left sorted |
| `Labels.NotViaMPLSIBMaintainer.AssignMPLSLabel` | sam/ryu/notViaMPLSIBMaintainer.py:23-29 | labels stay distinct, the new one is the least free, refused exactly if 0 to 2^20 are all taken; a pair that had a label leaks it |
| `Labels.NotViaMPLSIBMaintainer.DelMPLSLabel` | sam/ryu/notViaMPLSIBMaintainer.py:36-39 | exactly the pair and its label are freed; an unknown pair changes nothing |
| `Labels.NotViaMPLSIBMaintainer.ListedAreLive` | sam/ryu/notViaMPLSIBMaintainer.py:23-39 | there are as many listed labels as mapped pairs if and only if none has leaked |
| `Labels.LabelFits` | sam/ryu/notViaMPLSIBMaintainer.py:10-12 | the label fits 20 bits if and only if one of them is free; with all taken the source still lets 2^20 pass |

## Left out

- UfrrTables.UFRRIBMaintainer.CompressAllSwitchesUFRRTableByORTC: the source builds all tries before it compresses the first; here each is compressed as soon as it is built, which is the same as the tries share no node. They are returned, not filed under the IP version.
- Second-stage UFRR compression and `verifyCompression`: as written they do not preserve lookups, and the comparison looks at one entry only.
- UfrrFirstStage.CompressFirstStage: the deep copy of the input is a value, so aliasing between the two tables is not modelled; tables have numbers as keys.
- Next hops are whole numbers or none; entries whose actions have no "output nodeID" (groups) take part only in the tables, as in the source.
- GET commands of the mediator, which raise by design, and the merging of reply attributes.
- Mediators.Mediator.SendChild: the fourteen forwarding methods differ in names of queues and message types only and share one body here; sending is an entry of the log. Of a command's attributes the zone and the requester are modelled.
- MediatorTheorems.ExactlyOneAnswer: replies say SUCCESSFUL or FAIL and come from children that were sent a command; identifiers are fresh; replies for unknown identifiers, for which the source raises, change nothing.
- Simulators.SimulatorInfoBase.RemoveSfciFromBase: paths, functions and directions of the command line up, as they do for every instance that was added; one where they do not, on which the source raises wherever an index fails, is not modelled.
- Simulators.SimulatorInfoBase.DelSfciHandler: the same commands.
- Simulators.SimulatorInfoBase.DelSfcHandler: from a base that a run of accepted additions and removals reaches, with the chain's instances added in it; after a refused addition, or with instances from before, a removal may raise half way.
- SimulatorCancels.AddRemoveCancels: flows are compared by instance and direction, since a flow's number depends on which others exist, and the chain of the instance stays known; bandwidth, time stamps, utilisation and latency are not modelled.
- SimulatorRefusals.UnchangedExactly: instances the base knows nothing of; adding one that is stored is outside every run considered here.
- Simulator queries, randomness and background traffic; `add_sfc_handler`, which only stores the chain.
- PathComputers.PathComputer.MapPrimaryFP: the search is a parameter that promises a shortest path of the graph, or none if there is none. A server's switch is looked up in a table given at the start.
- ZonePartitions.OrchestratorManager.ComputeOrchInstanceInfoList: the pod intervals only; names of orchestrators are not modelled.
- ZonePartitions.OrchestratorManager.SplitInteger: numbers of pods and orchestrators are not negative; names of orchestrators and the choice by round robin are not modelled.
- ZonePartitions.Orchestrator.PrepareSubZoneSwitchesIdxInfo: fat trees with an even number of pods; the testbed topology, where every switch belongs to the zone, is not modelled, nor are the unused core index bounds.
- Labels.NotViaMPLSIBMaintainer.AssignMPLSLabel: the list is sorted by its own function on values; other users of the allocator are not modelled.
- OpenFlow, Ryu, BESS, gRPC, RabbitMQ, SSH, MySQL, logging, threads, the dashboard, mininet scripts and argument parsers: foreign calls and plumbing.
- Orchestrator recovery, scaling and the regressor behind the number of orchestrators: wall-clock time, database state and unfinished paths.
