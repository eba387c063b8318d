# Gumby, modelled and verified

Gumby runs distributed experiments. A synchronisation server waits for N clients, gives each an id, collects their
variables, sends everybody the table of all variables, waits for N acknowledgements, announces a common start time
and from then on relays messages between the clients. Each client then executes a scenario file; afterwards
post-processing scripts turn the collected files into statistics.

This project models the parts of that whose correctness the code decides by itself, and proves what they keep over
whole runs. `dafny verify dfyconfig.toml` checks everything.

## Modules

* `IdAssignment` - the loop that numbers the connections host by host.
* `SyncModel` - the state of server and clients, and the effect of every handler on it, as functions. The two kinds of
  transition system below and the classes all use these functions, so they speak of the same protocol.
* `SyncServer`, `SyncClient` - the server's and the client's objects with their fields updated in place; every method
  is proved to have the effect of the function of `SyncModel` that stands for it.
* `SyncBarrier` - the server against clients that write anything at any time, and connections that get lost: what the
  barrier guarantees without trusting anyone.
* `SyncRun`, `SyncProgress`, `SyncTermination`, `SyncRelay`, `SyncIds`, `SyncClock`, `SyncBytes` - the server, N real
  clients and the channels between them, without faults: the invariant of all runs, and what follows from it.
* `SyncTable` - the table of variables over those runs: who knows what of whom.
* `SyncCollisions`, `SyncShadow` - what two of their conditions cost, exactly: ids that collide, and a client variable
  named `time_offset`.
* `LineFraming`, `Text`, `Utf8`, `Wire` - bytes to lines, lines to fields, fields to text, and the encoding of messages
  from end to end.
* `Expansion`, `ExpansionIff`, `PeerSpec`, `Scenario`, `ScenarioLines`, `ScenarioCalls` - the scenario language:
  variables, peer specifications, the runner that parses line i only after running the immediate calls of the lines
  before it, reading back lines of the documented layout, and what lines add to the calls of a run.
* `MemoryDb` - the in-memory TrustChain store.
* `Circuits`, `CumulativeStats` - two loops over collected data.
* `ChangeLog`, `ChangeClashes`, `ChangeReplay` - the diff of nested dictionaries, what it holds when keys clash, and what
  replaying the log of diffs gives.
* `Wrappers` - optional values; `Sequences` - equations between sequences; `Counting` - distinct sequences, the
  pigeonhole principle and reorderings.

The channels of the protocol are the sequences of lines written and not yet read. A body started with `ensure_future`
runs in a step of its own, later; a loop without `await` is part of one step. Time stamps are chosen freely by every
step, so nothing rests on how long a step takes.

Where the code and its documentation differ, the model follows the code:

* Lines with equal time stamps are documented to run in order (gumby/scenario.py:49-51); the delay of each call is
  computed from a clock that moves on between lines (gumby/scenario.py:294-299), so nothing of the kind is claimed.
* Time specifications are documented as minutes and seconds with an optional range (gumby/scenario.py:29); the code also
  takes seconds alone and has no ranges (gumby/scenario.py:172-179).
* `print_dict_changes` is documented to return a dictionary equivalent to the current one (gumby/experiment.py:252).
  `ChangeReplay.ReturnedEquivalentIff` says exactly when it has the same leaves and exactly when it is the same
  dictionary, `ChangeReplay.DroppedKeyKept` and `ChangeReplay.EmptyDictMissed` show where not.
* A comment on the start says that the server gives the go signal and disconnects (gumby/sync.py:277); it does not
  disconnect, and relays messages from then on.

## Model

| member | source | states |
|---|---|---|
| IdAssignment.PoppedAt | gumby/sync.py:199-210 | visit r*k+j+1 of the loop pops the r-th connection of the j-th host in order, and no visit pops another |
| IdAssignment.VisitsDistinct | gumby/sync.py:199-210 | visits count from 1 and no two connections are popped at the same one |
| IdAssignment.LoopIdsDistinct | gumby/sync.py:182-210 | for arbitrary hosts the ids the loop hands out are pairwise distinct and within 1..n |
| IdAssignment.BalancedIffAllReached | gumby/sync.py:199-210 | the loop numbers every connection if and only if every host has its round-robin share of n |
| IdAssignment.ReachedMeansBijection | gumby/sync.py:199-210 | if every connection is reached the ids are a bijection onto 1..n |
| IdAssignment.BalancedAssignment | gumby/sync.py:182-210 | balanced hosts: ids are a bijection onto 1..n and host j holds exactly the ids congruent to j+1 modulo k |
| IdAssignment.NobodyVisited | gumby/sync.py:202-208 | a visit finds its host exhausted if and only if no connection is popped at it |
| IdAssignment.DistinctIff | gumby/sync.py:160-210 | for arbitrary hosts the ids lie in 1..n, and are distinct, hence a bijection, if and only if every connection the loop never reaches was created with a number whose visit finds its host exhausted |
| IdAssignment.UnbalancedCollision | gumby/sync.py:199-210 | an instance where ids collide: two connections of one host and then one of a lower host end with ids 2, 2, 1 |
| IdAssignment.UnbalancedWithoutCollision | gumby/sync.py:199-210 | the same hosts in another order are not balanced either, and end with the distinct ids 2, 1, 3 |
| IdAssignment.SortedHosts | gumby/sync.py:190-197 | exactly the hosts of the connections, each once, in ascending order |
| SyncServer.ServiceProto.ConnectionMade | gumby/sync.py:60-63 | the connection is listed last, and the last expected one assigns all ids and launches the push |
| SyncServer.ServiceProto.LineReceived | gumby/sync.py:65-73 | any line in any state has the effect of OnLine: dispatch, state change, or an unchanged state after an exception |
| SyncServer.ServiceProto.SendAndWaitForReady | gumby/sync.py:75-78 | a fresh future and one id line; nothing else changes |
| SyncServer.ServiceProto.ProtoInit | gumby/sync.py:90-115 | all five cases of the first state, with the zeroed offset and the future that raises when set twice |
| SyncServer.ServiceProto.SetOffset | gumby/sync.py:91-97 | the offset is the difference of the clocks, zero when within half a second |
| SyncServer.ServiceProto.ProtoVarsReceived | gumby/sync.py:117-123 | an acknowledgement is counted once and leads to wait, any other line to done |
| SyncServer.ServiceProto.ProtoRunning | gumby/sync.py:129-140 | a message is forwarded under the sender's id, a malformed one or an unknown receiver raises, the rest is ignored |
| SyncServer.ServiceFactory.constructor | gumby/sync.py:145-158 | a new factory lists nobody and has scheduled nothing |
| SyncServer.ServiceFactory.SetConnectionMade | gumby/sync.py:170-212 | as AfterMade: at N connections the ids of the id loop are in place and the push is launched |
| SyncServer.ServiceFactory.GroupByHost | gumby/sync.py:183-188 | the dictionary maps exactly the hosts seen to their connections, oldest first |
| SyncServer.ServiceFactory.AssignIds | gumby/sync.py:190-210 | the pop loop in place gives every connection the id of IdAssignment.AssignedIds |
| SyncServer.ServiceFactory.PushIdToSubscribers | gumby/sync.py:214-217 | one resumption sends one id and waits for that client, or ends |
| SyncServer.ServiceFactory.SetConnectionReady | gumby/sync.py:219-230 | one more ready subscriber; with N of them the table goes out |
| SyncServer.ServiceFactory.PushInfoToSubscribers | gumby/sync.py:232-255 | every ready subscriber is sent one and the same table |
| SyncServer.ServiceFactory.BuildTable | gumby/sync.py:234-249 | the table holds the variables of all ready subscribers by id, with default port and host |
| SyncTable.TableEntry | gumby/sync.py:235-249 | a ready subscriber, unless a later one has its id, has an entry with exactly its variables as they are, and the defaults for port and host only where it has set none |
| SyncTable.TableKeys | gumby/sync.py:234-249 | the table has entries for exactly the ids of the ready subscribers |
| SyncServer.ServiceFactory.SendLineToAll | gumby/sync.py:257-259 | the line is appended to the channel of every ready subscriber and to no other |
| SyncServer.ServiceFactory.SetConnectionReceived | gumby/sync.py:261-274 | one more acknowledgement; from the N-th on each schedules a start |
| SyncServer.ServiceFactory.StartExperiment | gumby/sync.py:276-285 | as StartStep: all ready subscribers in order are told the start on their clock, run, and are registered |
| SyncServer.ServiceFactory.TellGo | gumby/sync.py:281-285 | the loop in place, left at the first subscriber without a numeric offset |
| SyncServer.ServiceFactory.ForwardMessage | gumby/sync.py:289-293 | exactly one line to the receiver's channel, or an exception and no change for an unknown id |
| SyncServer.ServiceFactory.UnregisterConnection | gumby/sync.py:299-307 | a lost connection leaves the ready and acknowledged lists and stays among those made and registered |
| SyncServer.RaisedStays | gumby/sync.py:281-285 | once the loop has raised, later subscribers are left as they were |
| SyncBarrier.BarrierSafety | gumby/sync.py:105-123 | every run, any clients, losses: acknowledged within ready within made, no duplicates, nobody lost among them, at most one push and one launch, in that order |
| SyncBarrier.LaunchOnlyWhenComplete | gumby/sync.py:261-274 | the step that launches the start finds all N connected, acknowledged and not lost, and no launch before |
| SyncBarrier.StepKeeps | gumby/sync.py:65-305 | each step of the server keeps the barrier invariant |
| SyncBarrier.ReadyLineEffect | gumby/sync.py:105-110 | a ready line announces once, resolves the future and pushes exactly when N are ready |
| SyncBarrier.ReceivedLineEffect | gumby/sync.py:117-120 | an acknowledgement changes one state and one list, and schedules exactly when N have come |
| SyncBarrier.OtherLineKeeps | gumby/sync.py:90-140 | no other line pushes or launches |
| SyncBarrier.LoseKeeps | gumby/sync.py:299-307 | a disconnection keeps the invariant |
| SyncBarrier.LossIs | gumby/sync.py:299-307 | a disconnection takes exactly that connection off the two lists, the others keep their order |
| SyncBarrier.UnexpectedLine | gumby/sync.py:65-140 | in every state, a line there is no use for ends the connection, raises, is ignored or stops the loop, and changes nothing else |
| SyncBarrier.OutMeansNoStart | gumby/sync.py:65-307 | every run, any clients: once a connection is lost, or done without having acknowledged, before the start was launched, the start is never launched |
| SyncBarrier.StartRaisesIff | gumby/sync.py:281-285 | the start raises if and only if some ready subscriber has no numeric offset |
| SyncBarrier.SetShadowsOffset | gumby/sync.py:99-103 | a set line named time_offset takes the numeric offset away |
| SyncClient.ExperimentClient.ConnectionMade | gumby/experiment.py:84-88 | one time line with the client's own clock, then the client awaits its id |
| SyncClient.ExperimentClient.LineReceived | gumby/experiment.py:90-98 | any line in any state has the effect of OnDownlink |
| SyncClient.ExperimentClient.ProtoId | gumby/experiment.py:149-161 | the id is kept and the announcement handed to the executor; other lines lead to done |
| SyncClient.ExperimentClient.OnIdReceived | gumby/experiment.py:103-120 | the peer number is set; then one set line per variable, in order, and ready |
| SyncClient.ExperimentClient.ProtoAllVars | gumby/experiment.py:163-176 | the table and the server's random number are kept, the own offset looked up, one acknowledgement written; a missing entry raises before it |
| SyncClient.ExperimentClient.ProtoGo | gumby/experiment.py:178-185 | the start is scheduled for the target on the own clock, or at once if that is past |
| SyncClient.ExperimentClient.ProtoRunning | gumby/experiment.py:187-195 | a relayed message is handed on with its sender, everything else ignored |
| SyncClient.ExperimentClient.Send | gumby/experiment.py:100-101 | one message line |
| SyncClient.ExperimentClient.Session | gumby/experiment.py:84-195 | a whole set-up: the client writes its time, all variables in order, ready and one acknowledgement, hands on every message in order and starts on its own clock's target or at once |
| SyncClient.UnexpectedLine | gumby/experiment.py:90-195 | in every state, a line the client has no use for leads to a state it does not leave, raises or is ignored, and changes nothing else |
| SyncRun.StepKeeps | gumby/sync.py:65-293 | every step of server, clients or channels keeps the invariant that pairs each client's state and channel with its connection's |
| SyncRun.StepKeepsCore | gumby/sync.py:65-293 | with any names of variables so does every step but the start, which does if no variable is named time_offset |
| SyncRun.RunKeeps | gumby/sync.py:65-293 | the invariant holds in every state of every run of N clients |
| SyncRun.ReadyComesInOrder | gumby/sync.py:214-217 | ready lines arrive one at a time, from the client whose id was sent last |
| SyncRun.ReadyTableGood | gumby/sync.py:232-249 | the table pushed has an entry with an offset for exactly the ids of all connections |
| SyncTable.EveryoneKnows | gumby/sync.py:232-255 | every run, every client that was given the table: under the id of each client, the last one with the id, exactly its variables, each with the last value it has, its clock difference, and the defaults for port and host it has not set |
| SyncTable.OneTable | gumby/experiment.py:163-171 | every run: all clients that were given a table have the same one and the same random number, and each has as its offset that of its own entry |
| SyncTable.StepTable | gumby/sync.py:65-293 | no step gives anybody another table, and a table that is given fits all connections |
| SyncRun.AllWait | gumby/sync.py:270-285 | when a start is scheduled all N connections are ready and wait, and one has a numeric offset if and only if no variable of its client is named time_offset |
| SyncRun.StartEffect | gumby/sync.py:276-285 | in a run the start reaches everybody, raises nowhere, and registers exactly the ids of all connections |
| SyncProgress.LinesAccepted | gumby/sync.py:65-140 | in every state of every run the next line of each channel is one its receiver accepts, nobody is done or without handler, nothing raised, go precedes every relayed message |
| SyncProgress.GoFirst | gumby/sync.py:281-293 | on the way to a client that does not run yet, a go precedes each message |
| SyncProgress.Progress | gumby/sync.py:170-285 | a set-up step is possible if and only if not all clients and connections run with the push ended |
| SyncTermination.StepMeasure | gumby/sync.py:170-285 | each set-up step lowers a natural number by one, message traffic leaves it alone |
| SyncTermination.SetupStepsTaken | gumby/sync.py:170-285 | in every run set-up steps taken plus measure left equal the measure at the start |
| SyncTermination.MaximalRunsFinish | gumby/experiment.py:84-185 | set-up ends, and a run that cannot set up further has all N clients and connections running |
| SyncTermination.CanFinish | gumby/sync.py:170-285 | from every state with the invariant, so from every state of every run, set-up steps alone lead to the end of set-up, as many as the measure loses |
| SyncTermination.FinishedMeansZero | gumby/sync.py:170-285 | the measure is zero exactly when set-up is over, so all complete set-ups take equally many steps |
| SyncRelay.RelayConservation | gumby/sync.py:281-293 | every run, distinct ids: sent by a to b = received by b from a + under way, in order; so received is a prefix of sent |
| SyncRelay.StepKeepsRelay | gumby/sync.py:129-140 | no step loses, duplicates, reorders or misattributes a message |
| SyncRelay.ReadsMessageEffect | gumby/sync.py:129-136 | the server moves one line from the sender's channel to the end of that of the connection with the id asked for |
| SyncCollisions.ConservesIff | gumby/sync.py:160-293 | from given clients, every state of every run with everyone connected conserves the messages between any two of them, if and only if no unreached connection keeps a number that the loop gives away |
| SyncCollisions.CollisionLoses | gumby/sync.py:281-293 | where set-up is over and two connections have one id, a client that has sent nothing yet can send one message to that id, and once the server has read it the messages are no longer conserved |
| SyncBytes.BytesConserved | gumby/experiment.py:100-101 | every run, running clients, both channels as bytes in any chunks, with messages that decode, fit and survive formatting on their way: sent by a to b = received by b from a + what the unread bytes to b parse to + what the unread bytes from a parse to, in order |
| SyncIds.BalancedSettles | gumby/sync.py:179-212 | balanced hosts: once all are connected the ids are distinct in every state of every run |
| SyncIds.SettlesIff | gumby/sync.py:160-212 | once all are connected the ids are distinct in every state of every run if and only if no unreached connection keeps a number that the loop gives away |
| SyncIds.StepKeepsNames | gumby/sync.py:65-293 | after the last connection no step changes an id |
| SyncShadow.StartRaisesIff | gumby/sync.py:99-103 | every run of clients with any names of variables: nothing is done about a shadowed offset before the start, which raises if and only if some client has a variable named time_offset, and tells exactly the subscribers before the first such client to go |
| SyncShadow.NothingRaisesBefore | gumby/sync.py:65-274 | whatever the variables are called, nothing raises in any run before the start |
| SyncShadow.NothingRaisesIff | gumby/sync.py:276-285 | from given clients no run ever raises if and only if none has a variable named time_offset |
| SyncShadow.CanStart | gumby/sync.py:170-274 | whatever the variables are called, with at least one client, steps lead from every state before the start to one in which it is scheduled |
| SyncClock.StartsCloseTogether | gumby/sync.py:276-283 | constant clock differences, go on time: any two clients start less than the difference of their time lines' delays plus 1 second apart |
| SyncClock.StartWithin | gumby/experiment.py:178-185 | each client starts within half a second of the announced time less the delay of its time line |
| SyncClock.StartsAt | gumby/sync.py:91-97 | every run: a running client starts at the announced time plus the measured difference of the clocks, none under half a second, on its own clock, or at once if that had passed |
| LineFraming.JoinSplit | gumby/line_receiver.py:26-28 | joining the pieces of the split gives the bytes back |
| LineFraming.SplitJoin | gumby/line_receiver.py:26-50 | splitting undoes joining for lines and a tail without CRLF |
| LineFraming.SplitMore | gumby/line_receiver.py:25-28 | splitting more bytes goes on from the tail of the earlier split |
| LineFraming.ScanLine | gumby/line_receiver.py:26-39 | one turn of the loop in terms of the one-shot split, with both length checks |
| LineFraming.LongTail | gumby/line_receiver.py:30-39 | an undelimited tail at the limit overflows, whatever follows it |
| LineFraming.ScanMore | gumby/line_receiver.py:18-43 | scanning in two goes equals scanning at once; an overflow is final |
| LineFraming.ChunkingIrrelevant | gumby/line_receiver.py:18-43 | for every chunking the lines, the tail and the overflow are those of the one-shot split |
| LineFraming.FramedLines | gumby/line_receiver.py:18-50 | framed lines within the limit come out unchanged, with nothing left over |
| LineFraming.FramedIff | gumby/line_receiver.py:18-50 | as many lines come out of framed ones as went in, without overflow, if and only if each is free of CRLF and within the limit |
| LineFraming.SplitCount | gumby/line_receiver.py:26-28 | an end of line between any two byte strings adds exactly one line |
| LineFraming.LineReceiver.DataReceived | gumby/line_receiver.py:18-44 | also with chunks arriving re-entrantly: lines handed out, buffer and overflow are those of the one-shot split of all bytes received, unless a handler closed the transport, after which the rest stays in the buffer |
| LineFraming.LineReceiver.LineReceived | gumby/line_receiver.py:40-42 | a line is handed out once; chunks that arrive meanwhile only extend the buffer, and the transport may start closing |
| LineFraming.LineReceiver.Feed | gumby/line_receiver.py:18-44 | a connection fed any chunks, with any others arriving in between, ends as the one-shot split of all that arrived; a closing one hands out its first lines and keeps the rest; without others and closing, of the concatenation, also when it overflows early |
| Text.ParseShow | gumby/sync.py:131-136 | int undoes the decimal notation of every integer |
| Text.ParseIntIff | gumby/sync.py:131-136 | int reads digits with an optional sign and space around them, as the number they write, and raises on everything else |
| Text.StripIs | gumby/sync.py:131 | strip takes off the space at both ends and nothing else |
| Text.SplitJoined | gumby/scenario.py:219 | splitting undoes joining for parts without the separator |
| Utf8.DecodesIff | gumby/sync.py:102-133 | bytes decode if and only if they are the encoding of some text |
| Wire.MessageRoundTrip | gumby/sync.py:129-136 | a message survives encoding and parsing if and only if its type has no colon, its body no trailing space, and both decode as UTF-8 |
| Wire.Layout | gumby/experiment.py:100-118 | how the lines of messages and variables look |
| Wire.SetRoundTrip | gumby/sync.py:99-102 | the line of a variable reads back if and only if its name has no colon, its value no trailing space, and both decode |
| Wire.SetSurvivesIff | gumby/sync.py:99-102 | through the framing, in any chunks, a variable survives if and only if moreover neither part holds CRLF and the line is within the limit |
| Wire.StreamRoundTripIff | gumby/experiment.py:187-193 | in any chunks, framed messages are read back each as sent and nothing else, if and only if each one's type has no colon, its body no trailing space, both decode and hold no CRLF, and its line is within the limit |
| Wire.StreamRoundTrip | gumby/sync.py:129-136 | such messages, framed and in any chunks, parse to exactly those messages, in order, and no byte is left over |
| Wire.RelayedLines | gumby/sync.py:289-293 | what the server encodes from lines that parse and decode to a log is the encoding of the part of the log for that receiver, with the sender's id |
| Wire.EndToEnd | gumby/sync.py:129-136 | a client's messages, if they decode and survive formatting and framing, parse at the server under any chunking; what the server encodes of the parsed lines for one receiver, under any chunking, parses there to exactly the messages for it, in order, each under the sender's id |
| Expansion.ExpandLine | gumby/scenario.py:234-243 | the loop of replaces over the names found at the start |
| Expansion.ExpandMerged | gumby/scenario.py:234-243 | the variables of the user and of the environment act as one table in which the former go first, and without variables a line stays as it is |
| Expansion.ExpandIsSubstitution | gumby/scenario.py:234-243 | the sequence of replaces equals simultaneous substitution from the environment overridden by the variables of the user, if every dollar starts a name, values hold no dollar and no name is a proper prefix of another |
| Expansion.ReplaceFills | gumby/scenario.py:239-241 | one replace fills in one name everywhere and touches nothing else |
| Expansion.FillsLine | gumby/scenario.py:237-243 | filling in all names in any order and multiplicity is the simultaneous substitution |
| Expansion.PrefixDamages | gumby/scenario.py:239 | an instance: with names a and ab the first replace also damages the second |
| ExpansionIff.PrefixFreeIff | gumby/scenario.py:234-243 | in a line whose dollars all start names the replaces equal the substitution for all variables without dollars if and only if no name is a proper prefix of another |
| ExpansionIff.PrefixTellsApart | gumby/scenario.py:237-241 | emptying a name that is a proper prefix of another tells the two apart, in every such line |
| ExpansionIff.ReplacedDollars | gumby/scenario.py:239 | replacing a name by nothing leaves exactly the dollar signs of the names that do not start with it |
| ExpansionIff.SubstitutedDollars | gumby/scenario.py:53 | emptying a name where it stands leaves exactly the dollar signs of the other names |
| PeerSpec.ParsePeerspec | gumby/scenario.py:199-229 | the peers asked for and ruled out, or the exception of a malformed item |
| PeerSpec.AddPeers | gumby/scenario.py:219-227 | the loop over the items, on the set it updates |
| PeerSpec.ErrorStays | gumby/scenario.py:219-227 | a malformed item makes the whole specification raise |
| PeerSpec.ItemRefusedIff | gumby/scenario.py:219-227 | an item is refused if and only if it is neither blank, nor a number, nor two numbers with one hyphen between them |
| PeerSpec.SpecRefusedIff | gumby/scenario.py:308-320 | the test for this peer raises if and only if a specification without variables has such an item |
| PeerSpec.SpecRoundTrip | gumby/scenario.py:199-229 | a printed list of numbers and ranges parses to the union of what they name, with or without the mark |
| PeerSpec.RunsIffListed | gumby/scenario.py:308-320 | a peer runs the plain form iff it is listed and the marked form iff it is not; a list that names nobody is for everybody |
| PeerSpec.SplitInTwo | gumby/scenario.py:313-320 | a specification and its marked form split the peers in two if and only if it names somebody |
| Scenario.LastIndexOf | gumby/scenario.py:116 | rfind: the last occurrence or -1 |
| Scenario.ScenarioRunner.Register | gumby/scenario.py:267-278 | the callback comes last under its name, other names are unchanged |
| Scenario.ScenarioRunner.Set | gumby/experiment.py:233-244 | one variable of the parser is changed |
| Scenario.ScenarioRunner.NextCommand | gumby/scenario.py:114-197 | one line is cut, tested for this peer, expanded with the variables at hand and parsed |
| Scenario.ScenarioRunner.Call | gumby/scenario.py:293-306 | all callbacks of the name in order: timed ones are only scheduled, immediate ones run now until one raises, and set changes the variables |
| Scenario.SetArgsIff | gumby/experiment.py:233-244 | set binds name and value by position, the value by name, or both by name, and nothing else |
| ScenarioCalls.TimedSchedules | gumby/scenario.py:293-299 | a command with a time adds exactly one scheduled call per callback, in order, and changes nothing else |
| ScenarioCalls.ImmediateCalls | gumby/scenario.py:300-306 | an immediate command makes exactly one call per callback, in order, and if set is among them the variable gets the value |
| ScenarioCalls.ImmediateRaises | gumby/scenario.py:300-306 | an immediate set that cannot bind its arguments raises after exactly the calls before it |
| ScenarioCalls.LineDid | gumby/scenario.py:289-306 | each line of a run, with the variables left by the lines before it, does exactly that: nothing after an exception, nothing if dropped or not registered |
| ScenarioCalls.DocumentedLine | gumby/scenario.py:114-306 | a line of the documented layout in a run does what its command should at exactly the peers it names |
| ScenarioCalls.SetThenExpands | gumby/scenario.py:234-306 | after an immediate set its name expands to its value |
| Scenario.ScenarioRunner.Run | gumby/scenario.py:280-306 | the lazy loop equals a fold over the lines |
| Scenario.LatestSetDecides | gumby/scenario.py:237-241 | line i sees the latest earlier immediate set for this peer, else the value before the run, else the environment |
| Scenario.LaterLinesIrrelevant | gumby/scenario.py:289-306 | later lines change nothing of what earlier lines scheduled or called |
| Scenario.OnlyImmediateSetsMatter | gumby/scenario.py:289-306 | a line that sets nothing at once leaves what every later line does unchanged |
| Scenario.TimedSetSetsNothing | gumby/scenario.py:293-299 | a set with a time changes no variable while the lines are read |
| ScenarioLines.TimeReadsBack | gumby/scenario.py:169-179 | a time printed as seconds, minutes and seconds, or hours, minutes and seconds is read back in seconds, `@!` as an immediate call |
| ScenarioLines.CutReadsBack | gumby/scenario.py:115-120 | the specification is cut off at its brace whatever the line before it holds, also other braces |
| ScenarioLines.CommandReadsBack | gumby/scenario.py:160-188 | time, callable and arguments are told apart, spaces in the arguments included |
| ScenarioLines.AloneReadsBack | gumby/scenario.py:160-188 | time and callable alone give the callable without arguments |
| ScenarioLines.DroppedIff | gumby/scenario.py:159-197 | a line is dropped if and only if its time or arguments are refused or its specification starts with a variable |
| ScenarioLines.AloneDroppedIff | gumby/scenario.py:159-197 | the same without arguments; a single word is always dropped |
| ScenarioLines.TimeRefusedIff | gumby/scenario.py:174-179 | a time is refused if and only if one of its last three pieces is no number |
| ScenarioLines.ExtraPieces | gumby/scenario.py:174-179 | pieces before the last three are not looked at |
| ScenarioLines.AtOptional | gumby/scenario.py:169-173 | the mark before a time makes no difference |
| ScenarioLines.LineReadsBack | gumby/scenario.py:114-188 | a line of the documented layout gives exactly the command written, at exactly the peers it names |
| ScenarioLines.MarkedLineReadsBack | gumby/scenario.py:114-188 | with the mark, at exactly the other peers |
| ScenarioLines.WithoutSpecReadsBack | gumby/scenario.py:114-188 | without a specification, at every peer |
| ScenarioLines.AloneLineReadsBack | gumby/scenario.py:114-188 | a time and a callable alone: at exactly the peers named, with the mark at exactly the others |
| ScenarioLines.AloneWithoutSpecReadsBack | gumby/scenario.py:114-188 | and without a specification at every peer |
| ScenarioLines.VariableSpec | gumby/scenario.py:183-185 | a specification with a variable counts as none, and one that starts with a variable drops the line at every peer |
| MemoryDb.LatestBounds | experiments/trustchain/trustchain_mem_db.py:27-38 | after any adds and removals the latest block bounds all cached numbers of its key; without removals it is the maximum; positive numbers keep it positive, so a lowest unknown number always exists |
| MemoryDb.StoreHolds | experiments/trustchain/trustchain_mem_db.py:27-38 | after any adds and removals: under each key, and under each key linked to, exactly the block added last and not removed since; as latest the first added block with the highest number |
| MemoryDb.RemovalIs | experiments/trustchain/trustchain_mem_db.py:36-38 | a removal leaves neither entry and changes nothing else |
| MemoryDb.TrustchainMemoryDatabase.AddBlock | experiments/trustchain/trustchain_mem_db.py:27-34 | all three dictionaries after an add |
| MemoryDb.TrustchainMemoryDatabase.RemoveBlock | experiments/trustchain/trustchain_mem_db.py:36-38 | both entries go whichever blocks they hold, the latest blocks stay |
| MemoryDb.TrustchainMemoryDatabase.GetLowestSequenceNumberUnknown | experiments/trustchain/trustchain_mem_db.py:91-97 | the least positive number not cached, and no number at all exactly when the latest one is negative |
| MemoryDb.TrustchainMemoryDatabase.GetLinked | experiments/trustchain/trustchain_mem_db.py:108-113 | the block linked to, else the block that links here |
| MemoryDb.LinkedIs | experiments/trustchain/trustchain_mem_db.py:108-113 | after any adds and removals: the block stored under the key linked to, and only if there is none the one that links here |
| MemoryDb.AddsWellLinked | experiments/trustchain/trustchain_mem_db.py:27-34 | adds with distinct keys keep the two dictionaries consistent |
| MemoryDb.PartnersIff | experiments/trustchain/trustchain_mem_db.py:108-113 | being linked is symmetric if and only if every link to a stored block is mutual or the only one to a block that links nowhere |
| MemoryDb.PartnersAfterAdds | experiments/trustchain/trustchain_mem_db.py:108-113 | the same for every store built by adds with distinct keys |
| MemoryDb.ProposalsAndAgreements | experiments/trustchain/trustchain_mem_db.py:27-34 | proposals that link to number 0, at most one agreement each: get_linked is a symmetric partner relation |
| Circuits.GetRelayCircuitTotals | experiments/tunnels/parse_tunnel_statistics.py:80-85 | the bytes of all relays with that incoming id |
| Circuits.TotalsSum | experiments/tunnels/parse_tunnel_statistics.py:80-85 | the totals of two lists add up, and one relay counts its bytes under its incoming id and nothing under others |
| Circuits.BuildCircuitsGraph | experiments/tunnels/parse_tunnel_statistics.py:87-111 | for any relays, whenever the loops end (at most as many passes as relays, see EndsIffWithin): all circuits but the rendezvous ones, numbered from 1, each as its first edge and the edges of its hops |
| Circuits.CircuitAdds | experiments/tunnels/parse_tunnel_statistics.py:90-111 | a circuit adds nothing if it is a rendezvous, else an unbroken line of edges of its kind under the next number: from its peer to its first hop with its own bytes, then those of a maximal walk from there |
| Circuits.NumberedCounts | experiments/tunnels/parse_tunnel_statistics.py:89-111 | the numbers count the circuits that are no rendezvous |
| Circuits.FollowRelays | experiments/tunnels/parse_tunnel_statistics.py:96-109 | whenever they end, the passes over the relays add the edges of the hops they go through, in order |
| Circuits.OnePass | experiments/tunnels/parse_tunnel_statistics.py:99-106 | one pass over the relays: its edges, where it stops, and that it found something exactly when it moved |
| Circuits.PassTakes | experiments/tunnels/parse_tunnel_statistics.py:98-106 | for any relays a pass takes, after each relay, the first later one that starts at the hop reached, until none does |
| Circuits.FindsNothingIff | experiments/tunnels/parse_tunnel_statistics.py:99-109 | a pass finds nothing if and only if no relay starts at the hop |
| Circuits.LoopWalkIsMaximal | experiments/tunnels/parse_tunnel_statistics.py:98-109 | for any relays the hops form a maximal walk from the first hop: each leads to the next and nothing leads on from the last |
| Circuits.MaximalWalkUnique | experiments/tunnels/parse_tunnel_statistics.py:98-109 | with unique keys there is at most one maximal walk from a hop |
| Circuits.LoopEndsIff | experiments/tunnels/parse_tunnel_statistics.py:98-109 | with unique keys the loops end if and only if some maximal walk of at most one hop more than relays starts at the first hop |
| Circuits.EndsIffWithin | experiments/tunnels/parse_tunnel_statistics.py:98-109 | for any relays, in any order and with any keys, the loops end if and only if no more passes find something than there are relays |
| Circuits.StartsDistinct | experiments/tunnels/parse_tunnel_statistics.py:98-109 | where the loops end no two passes that find something start at the same hop |
| Circuits.MaximalWalkBound | experiments/tunnels/parse_tunnel_statistics.py:98-109 | with unique keys a maximal walk meets no hop twice |
| Circuits.SelfRelayNeverEnds | experiments/tunnels/parse_tunnel_statistics.py:98-109 | a relay that leads back to where it starts keeps the loops from ending |
| Circuits.RankEnds | experiments/tunnels/parse_tunnel_statistics.py:98-109 | a rank that falls along every relay bounds the number of passes |
| Circuits.EdgesContiguous | experiments/tunnels/parse_tunnel_statistics.py:103-106 | the edges form one unbroken line under one number, with the totals of the hops |
| Circuits.TotalsPermuted | experiments/tunnels/parse_tunnel_statistics.py:80-85 | the totals do not depend on the order of the relays |
| Circuits.GraphPermuted | experiments/tunnels/parse_tunnel_statistics.py:87-111 | with unique keys nor does the whole graph, and over another order the loops end too |
| CumulativeStats.ComputeTxCumulativeStats | gumby/post_process_blockchain.py:58-97 | from unsorted transactions: a row of zeros, then (t, submitted by t, confirmed by t) at steps of 100 up to the first t with nothing left to happen |
| CumulativeStats.CountInWindows | gumby/post_process_blockchain.py:72-97 | the two-pointer loop over the sorted times, with its termination |
| CumulativeStats.GuardMeaning | gumby/post_process_blockchain.py:84 | the guard holds exactly while something is submitted or confirmed later |
| CumulativeStats.CountIsIndex | gumby/post_process_blockchain.py:86-94 | in a sorted list the index of the first later time is the count |
| CumulativeStats.CountSorted | gumby/post_process_blockchain.py:69-70 | sorting changes no count |
| CumulativeStats.TableUnique | gumby/post_process_blockchain.py:80-97 | the contract of the method determines the table |
| CumulativeStats.PermutedSameTable | gumby/post_process_blockchain.py:62-70 | reordering the transactions changes nothing |
| CumulativeStats.LastRowComplete | gumby/post_process_blockchain.py:80-97 | the last row counts everything if and only if there are no transactions, or something is confirmed and something happens after time 0 |
| CumulativeStats.NeverAhead | gumby/post_process_blockchain.py:84-97 | if nothing is confirmed before it is submitted no row has more confirmed than submitted |
| ChangeLog.GetChangedValues | gumby/experiment.py:254-280 | the recursive loop: the converted dictionary and the diff, or AttributeError |
| ChangeLog.Annotations.PrintDictChanges | gumby/experiment.py:282-287 | the diff is appended to the log if there is one, and what is returned in each case; an exception writes nothing |
| ChangeLog.RaisesIff | gumby/experiment.py:265-277 | a call raises if and only if some path leads to a leaf in the previous dictionary and to a dictionary with entries now |
| ChangeLog.ItemPlaces | gumby/experiment.py:256-278 | if no two keys are turned into the same one, each item alone decides its entry in both dictionaries |
| ChangeLog.KeptAs | gumby/experiment.py:258-276 | an item no later one clashes with is kept under its key, or the text that is shown as, as its value, the text that is shown as, or the dictionary of its items |
| ChangeLog.DiffLeaves | gumby/experiment.py:254-280 | without clashing keys the leaves of the diff are exactly the leaves of the current dictionary that differ from the previous one |
| ChangeClashes.UnchangedIff | gumby/experiment.py:254-280 | for any dictionary, clashing keys included: nothing is recorded if and only if the previous dictionary has every leaf of every item |
| ChangeClashes.DiffLeafPlace | gumby/experiment.py:258-278 | a leaf of the diff comes from an item after which nothing that clashes with it was new |
| ChangeClashes.PlaceInDiff | gumby/experiment.py:258-278 | and every new leaf after which nothing that clashes with it was new is in the diff |
| ChangeClashes.FinalHeld | gumby/experiment.py:258-278 | a leaf of the new dictionary is in the diff or was there before |
| ChangeReplay.WrittenIff | gumby/experiment.py:282-285 | the log is written to if and only if some entry of the current dictionary is new; without clashing keys, if and only if some leaf differs |
| ChangeReplay.ReplayIff | gumby/experiment.py:254-287 | for any dictionary, nested or not: replaying what a call writes gives every leaf of it for all previous dictionaries if and only if its clashing keys are harmless, a condition on the dictionary alone |
| ChangeReplay.NoClashNoHarm | gumby/experiment.py:259-261 | without clashing keys the condition holds |
| ChangeReplay.FlatHarmlessIff | gumby/experiment.py:259-278 | in a dictionary of leaves it holds if and only if clashing keys have equal values |
| ChangeReplay.HarmComesOut | gumby/experiment.py:254-287 | each harmful clash comes with a previous dictionary for which the call does not raise and the replay goes wrong |
| ChangeReplay.CallReplays | gumby/experiment.py:282-287 | one call with harmless clashes keeps a replayed log in agreement with what it returns and with the current dictionary |
| ChangeReplay.LogReplays | gumby/experiment.py:246-287 | after any calls, each given the previous result, kinds kept and clashes harmless, replaying the log gives every leaf of the last dictionary and of the one returned |
| ChangeReplay.NeverRaises | gumby/experiment.py:246-287 | with kinds kept no call of a series raises |
| ChangeReplay.ReturnedEquivalentIff | gumby/experiment.py:252-287 | the returned dictionary has all leaves of the current one; it has the same leaves if and only if some entry of the current one is new or no leaf of the previous one was dropped, and is the same dictionary if and only if some entry is new or the two were the same before |
| ChangeReplay.DroppedKeyKept | gumby/experiment.py:283-287 | an instance: a dropped key is neither logged nor dropped from the result |
| ChangeReplay.EmptyDictMissed | gumby/experiment.py:264-287 | an empty dictionary that appears under a new key is neither logged nor part of the result |
| ChangeReplay.ClashMisleads | gumby/experiment.py:259-278 | an instance of a harmful clash: the log gives the first value, the dictionary the second |

## Left out

Of the protocol:

- Sockets, the event loop, threads, signals, logging, and the sync timeout by the wall clock; only the steps they
  cause are modelled. `connection_lost` and losses are part of `SyncBarrier`, not of the fault-free runs.
- More than N connections in a run: the triggers compare with `>=`, so a further connection would assign ids again.
- In fault-free runs applications send only once their client runs and only to ids of the table it was given; what
  other sends do is covered by `SyncBarrier` and the classes.
- Runs start with clients none of whose variables is named `time_offset` (`SyncRun.Initial`). `SyncShadow` says what
  happens otherwise, up to and including the start that raises; what comes after that is not modelled.
- `SyncModel` starts from parsed lines; `Wire`, `Utf8` and `LineFraming` cover bytes. Lines that start with a keyword but
  do not parse, or whose fields do not decode as UTF-8, are the constructors `BrokenSetup` and `BrokenMsg`: the messages
  and variables of clients in `SyncRun` are taken to decode, and to survive formatting. `SyncBytes` has these as
  conditions.
- SyncClient.ExperimentClient.OnIdReceived: does not model the output directory and the callbacks of experiment modules.
  In runs its lines are written one by one, interleaved with everything else, as the executor thread does.
- SyncClient.ExperimentClient.ProtoAllVars: does not model the copy of the line in a file and the callbacks of
  experiment modules.
- JSON is a map, the random number of the table a parameter, clocks are reals that differ by constants, and the
  rounding of `%f` is ignored. Hosts are integers in the order of their addresses. Byte strings are strings.
- An overflow is the end of a connection in `LineFraming`; that `lose_connection` is no method of the transport is not
  modelled.
- SyncServer.ServiceFactory.UnregisterConnection: the look-up of the id among the connections that acknowledged is left
  out, because that list never holds ids.
- The client's reconnecting factory, and what a client does after `done`.

Of the scenario language:

- `shlex`, the pattern of named arguments and `float` are parameters of the model. Word characters are ASCII; `int`
  accepts an optional sign and digits within space, no underscores.
- Reading files, `&` directives and includes.
- Scenario.ScenarioRunner.Call: does not model what callbacks other than `set` do, nor the delays of timed calls, for the
  reason given above.
- Lines with a dollar sign that starts no name, and values with dollar signs, which a later replace may expand again, are
  outside `ExpansionIff.PrefixFreeIff`.

Of the rest:

- `get_latest_blocks`, `crawl`, `get_lowest_range_unknown` and the trivial queries of the TrustChain store.
- Circuits.BuildCircuitsGraph: addresses are given as ports and writing the file is left out. Its only condition is that
  the loops end, in the form that `Circuits.EndsIffWithin` proves equivalent for any relays.
- The other methods of the blockchain parser; times are whole numbers.
- In `ChangeLog` iterables are text, so later changes to a list that the previous result shares are not modelled, and
  neither is JSON turning number keys into strings.
- Experiment modules, community loaders, the process guard and its statistics, launchers, settings and shell scripts.
