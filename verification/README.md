# Communicator daemon: cluster logic

The communicator daemon runs on every computer of a cluster. It passes messages
between local services, floods broadcasts to the other daemons, keeps the
connections of the mesh, decides whether the cluster has a quorum, caches
messages for services that are not there yet, and watches failing connections,
load averages and bad credentials. This project models that logic and proves
what it guarantees.

`dafny verify dfyconfig.toml` checks everything.

## How it is laid out

| file | contents |
|---|---|
| `Basics.dfy` | optional values and the sizes of sets |
| `Messages.dfy`, `MessageId.dfy` | messages and the identifier of a broadcast |
| `DaemonSpec.dfy` | one daemon handling one message, as functions on its state |
| `Communicatord.dfy` | the daemon's methods, working on its fields, proved against those functions |
| `DaemonLaws.dfy` | what these functions mean: links, routing, repeated copies |
| `DaemonMeaning.dfy` | the same said with the protocol's own names and numbers: whom every message reaches, and what becomes of it |
| `FloodSystem.dfy` | the cluster as a step system, with a clock per daemon and copies in flight |
| `FloodSafety.dfy` | agreement, at most one acceptance, true hop counts |
| `FloodTermination.dfy` | flooding ends, with a bound |
| `FloodCoverage.dfy`, `FloodReach.dfy` | where copies go and whom they reach |
| `FloodMeaning.dfy` | which links messages take over whole runs |
| `FloodSettles.dfy` | any broadcast can be brought to rest |
| `FloodNearest.dfy` | the deliveries that take a broadcast furthest |
| `FloodService.dfy` | how often each service is handed a broadcast |
| `FloodDirected.dfy` | messages for one service of one server, over whole runs |
| `FloodLine.dfy` | daemons in a line: runs that have the setting of `FloodReach`, and where coverage ends |
| `RemoteCommunicators.dfy`, `RemoteCommunicatorsRuns.dfy` | dialling and gossiping, over whole runs |
| `Neighbors.dfy`, `Mesh.dfy` | the list of neighbors, full meshes, split brain |
| `ClusterStatus.dfy` | quorum and announcements |
| `MessageCache.dfy`, `CacheRuns.dfy` | the message cache, over whole runs |
| `Flags.dfy` | flag names and file names |
| `LoadAverage.dfy`, `BlockedIps.dfy`, `RemoteConnection.dfy` | the state machines that summarise a history |

Each class is paired with functions on its state. A method's contract equates
the new state with such a function, and the lemmas about whole runs are about
those functions.

## What the code does and its comments do not say

- The originator means to add itself to the informed list, but only does so if
  it is there already. With links that work both ways every broadcast that
  reaches another daemon comes back and passes the originator's own gate
  (`OriginatorHearsItself`, `SentBackExactly`), so its local services are served
  twice, and those of every other daemon once (`ServedAtMost`, `ServedExactly`,
  `EveryServiceServed`; `EchoHappens` gives runs in which this occurs). With such
  links the echo comes exactly if the originator has a neighbour at all
  (`EchoExactly`); without them it never comes if no daemon within four links of
  the originator has a link to it (`NeverSentBack`).
- Coverage depends on the links. It holds if no chain of daemons that a broadcast
  can take makes more than five hops, so in every connected cluster of at most
  six (`CoveredWhenShort`, `QuiescentCoverage`); a daemon more than five links
  away is never reached (`FarIsNotReached`), and everybody can be reached exactly
  if nobody is further away than that (`CoverageIsPossible`). In a line, with the originator at
  its end, coverage holds up to six daemons exactly (`LineCoveredExactly`,
  `LongLineMissed`).
- A message for one service of a named server makes one hop and is handed over
  at most once in a run, although the daemon there does not record it: there is
  only one copy of it (`DirectedOneHop`, `DirectedCount`, `DirectedAtMostOnce`,
  `DirectedServedOnce`; `LetterIsRead` gives such a run).
- A directed message that ends at a local service, in the cache or at the daemon
  itself is not recorded, so a second copy is handled again (`RepeatedCopy`).
- An address that was forgotten, or whose first connection the dispatcher
  refused, is never dialled again, and FORGET leaves a gossip connection
  registered (`DialledExactly`, `ForgetLeaks`, `RelearnedHasNoConnection`).
- A hang-up of a remote peer is answered as a query of the lost connection, so
  it announces nothing; the loss of a peer that the daemon had dialled
  (communicator/daemon/remote_connection.cpp:146-168) computes no status at all.
  The status announced before is wrong from then on exactly when the lost daemon
  was the last one needed for the quorum (`HangUpGoesUnannounced`,
  `HangUpsGoUnannounced`, `HangUpMisleads`).
- The quorum is counted over direct connections, so two groups without a
  connection between them can both be up, through daemons connected to both
  (`BridgeKeepsBothUp`). They can be exactly if each has less than half of the
  daemons (`SplitBrainExactly`, `UpOutsideMinority`); two daemons without a
  connection that are both up share a live peer (`UpPeersMeet`, `NoSplitBrain`),
  and a cluster cut in two is never up on both sides (`CutInTwo`). This holds as
  long as no peer is counted twice (`DoubleCountSplits`, `HalvesOfFour`).
- A connection takes the failure flag down after every outage, not only after
  one in which it was raised (`TakenDownExactly`).
- The load average file is not truncated, so a shorter table does not survive a
  save (`SaveThenLoad`).
- A load average of "nan" is not negative, so it is stored, and in first place
  it is what the search for the least busy computer finds; anywhere else it does
  no harm (`FoundIsLeast`, `LeastBusyIsLeast`, `NanIsFound`).

## Model

| member | source | states |
|---|---|---|
| MessageId.DecimalDenotes | communicator/daemon/communicatord.cpp:3615-3622 | the digits appended to an identifier denote the counter |
| MessageId.MsgIdInjective | communicator/daemon/communicatord.cpp:3615-3622 | two identifiers are equal exactly when server name and counter are |
| MessageId.MsgIdReads | communicator/daemon/communicatord.cpp:3615-3622 | an identifier is the server name, a dash and the digits of the counter, and is read back as such |
| CommunicatordDaemon.Communicatord.CheckBroadcastMessage | communicator/daemon/communicatord.cpp:1825-1870 | the gate refuses exactly the tagged messages that timed out or whose identifier is remembered |
| CommunicatordDaemon.Communicatord.PurgeReceived | communicator/daemon/communicatord.cpp:3314-3326 | the loop over the received map leaves exactly the identifiers whose timeout has not passed |
| CommunicatordDaemon.Communicatord.RecordBroadcast | communicator/daemon/communicatord.cpp:3274-3346 | a broadcast is dropped as the gate says, or recorded after the purge |
| CommunicatordDaemon.Communicatord.ScanConnections | communicator/daemon/communicatord.cpp:3358-3540 | the pass over all connections serves local services and collects the links ScanAll collects |
| CommunicatordDaemon.Communicatord.ScanGiven | communicator/daemon/communicatord.cpp:3542-3588 | the pass over an explicit list collects the links ScanList collects |
| CommunicatordDaemon.Communicatord.CollectTargets | communicator/daemon/communicatord.cpp:3358-3588 | the two passes together choose the targets of the message |
| CommunicatordDaemon.Communicatord.SendCopies | communicator/daemon/communicatord.cpp:3590-3674 | one copy per chosen link, numbered if new, one hop further, with the informed list that was built |
| CommunicatordDaemon.Communicatord.BroadcastMessage | communicator/daemon/communicatord.cpp:3259-3674 | state, local deliveries and copies of a broadcast are those of Broadcast |
| CommunicatordDaemon.Communicatord.VerifyCommand | communicator/daemon/communicatord.cpp:1332-1378 | a command is refused only in debug mode and by a connection that listed other commands |
| CommunicatordDaemon.Communicatord.TransmissionReport | communicator/daemon/communicatord.cpp:1791-1822 | a report is sent only to a known sender that asked for one |
| CommunicatordDaemon.Communicatord.SearchConnections | communicator/daemon/communicatord.cpp:1499-1708 | the routing loop finds the first named local connection, or else all remote connections for the server |
| CommunicatordDaemon.Communicatord.CacheLocally | communicator/daemon/communicatord.cpp:1717-1757 | the message is cached or answered as its cache parameter asks |
| CommunicatordDaemon.Communicatord.ForwardToService | communicator/daemon/communicatord.cpp:1486-1787 | routing of a directed message and the value it returns |
| CommunicatordDaemon.Communicatord.ForwardMessage | communicator/daemon/communicatord.cpp:1405-1787 | routing of any message and the value it returns |
| CommunicatordDaemon.Communicatord.DispatchMessage | communicator/daemon/communicatord.cpp:1960-1994 | gate, shutdown, own messages, then routing, in this order |
| CommunicatordDaemon.Communicatord.Register | communicator/daemon/communicatord.cpp:3115-3128 | a registration sends what was cached for the service and removes it from the cache |
| DaemonLaws.ScanAllInforms | communicator/daemon/communicatord.cpp:3414-3538 | the informed list grows by exactly the addresses of the eligible links |
| DaemonLaws.ScanAllChooses | communicator/daemon/communicatord.cpp:3414-3538 | each newly informed address gets exactly one copy, over an eligible link |
| DaemonLaws.ScanAllServes | communicator/daemon/communicatord.cpp:3414-3470 | local services that understand the command are served once each and nothing else is |
| DaemonLaws.ScanListMeaning | communicator/daemon/communicatord.cpp:3542-3588 | an explicit list sends one copy per address not informed, and every daemon link of it is informed afterwards |
| DaemonLaws.BroadcastServes | communicator/daemon/communicatord.cpp:3380-3470 | a broadcast serves each understanding local service once, whatever its hop count |
| DaemonLaws.RemembersLiveOnly | communicator/daemon/communicatord.cpp:3314-3332 | after a broadcast the daemon remembers it and exactly the others that are not out of date |
| DaemonLaws.DecisionUnique | communicator/daemon/communicatord.cpp:1499-1787 | the four routing decisions exclude each other |
| DaemonLaws.RoutingRefinesDecision | communicator/daemon/communicatord.cpp:1499-1787 | for every connection list the router takes the decision that applies: first named service, cache, drop, or all remotes of the server |
| DaemonLaws.DirectedOnce | communicator/daemon/communicatord.cpp:1499-1787 | a directed message never reaches two services, nor a service here and another daemon |
| DaemonLaws.DispatchShape | communicator/daemon/communicatord.cpp:1960-1994 | every dispatch is quiet or one broadcast of the same text and tag |
| DaemonLaws.RepeatedCopy | communicator/daemon/communicatord.cpp:1640-1667 | a second copy is refused exactly when the first reached the broadcast; otherwise it is handled again |
| DaemonMeaning.RefusedExactly | communicator/daemon/communicatord.cpp:1825-1870 | a message out of date or remembered does nothing, nor does any message while shutting down |
| DaemonMeaning.ForDaemonExactly | communicator/daemon/communicatord.cpp:1893-1906 | exactly the messages for server "", ".", "*" or the own name and service "" or "communicatord" are handled by the daemon itself |
| DaemonMeaning.HandedExactly | communicator/daemon/communicatord.cpp:1499-1667 | the first local connection with the service's name on that server is handed the message unless it sent it or does not know the command, and nothing else happens |
| DaemonMeaning.CachedExactly | communicator/daemon/communicatord.cpp:1717-1757 | for server "", "*", "?", "." or the own name, a known service that is not connected: cached, or refused, and what the sender is told |
| DaemonMeaning.DroppedExactly | communicator/daemon/communicatord.cpp:1759-1774 | a message for this server and an unknown service is dropped and reported |
| DaemonMeaning.SentOutExactly | communicator/daemon/communicatord.cpp:1776-1787 | everything else goes, as one copy each, to exactly the uninformed daemons of the server, with "?" turned into "*" |
| DaemonMeaning.CacheUntouched | communicator/daemon/communicatord.cpp:1717-1757 | the cache changes in no other case |
| DaemonMeaning.ResultExactly | communicator/daemon/communicatord.cpp:1405-1787 | the router's result: a broadcast it takes, a message cached or refused by the cache, or sent out |
| DaemonMeaning.BroadcastExactly | communicator/daemon/communicatord.cpp:1405-1497 | "*" and "?" are broadcast unless a server is named, "." always |
| DaemonMeaning.BroadcastReaches | communicator/daemon/communicatord.cpp:3380-3540 | below five hops "*" goes to private and public links, "?" to private ones, to each address that is not informed once |
| DaemonMeaning.RelaysInOrder | communicator/daemon/communicatord.cpp:3414-3540 | copies leave in the order of the connections, over the first link to an address |
| DaemonMeaning.BroadcastServesExactly | communicator/daemon/communicatord.cpp:3414-3470 | Unix connections and loopback connections that understand the command get it, once each, in order |
| DaemonMeaning.LocalStays | communicator/daemon/communicatord.cpp:3380-3381 | a message for service "." leaves no daemon |
| DaemonMeaning.CopyExactly | communicator/daemon/communicatord.cpp:3590-3674 | the text is unchanged, one hop is added, everybody informed or sent a copy is listed; a new message gets its number and ten seconds |
| DaemonMeaning.RecordExactly | communicator/daemon/communicatord.cpp:3314-3332 | what is remembered after a broadcast, with which timeouts |
| FloodSafety.BroadcastLimits | communicator/daemon/communicatord.cpp:3380-3381 | at most one copy per connection; without an explicit list none after five hops |
| FloodSafety.GateMeansNew | communicator/daemon/communicatord.cpp:1842-1866 | an identifier that passes the gate was never accepted by this daemon |
| FloodSafety.StepSafe | communicator/daemon/communicatord.cpp:3274-3346 | every step of the cluster keeps the invariant |
| FloodSafety.RunSafe | communicator/daemon/communicatord.cpp:3274-3346 | the invariant holds after every run of any number of daemons |
| FloodSafety.AcceptedAtMostOnce | communicator/daemon/communicatord.cpp:1825-1870 | in every interleaving, with unsynchronised clocks and purges, a daemon accepts an identifier at most once |
| FloodSafety.CopiesAgree | communicator/daemon/communicatord.cpp:3643-3648 | all copies under one identifier have the same originator, timeout and text |
| FloodSafety.ChainIsTrue | communicator/daemon/communicatord.cpp:3634 | the hop count is the length of the chain, at most five for a broadcast, and the accepting daemons of the chain are distinct |
| FloodTermination.DeliveryCount | communicator/daemon/communicatord.cpp:3542-3674 | a delivery takes one copy away, and adds copies only when the daemon accepts for the first time |
| FloodTermination.DeliveryDecreases | communicator/daemon/communicatord.cpp:3274-3346 | each delivery lowers the pair of waiting daemons and copies in flight, for both branches |
| FloodTermination.FloodingEnds | communicator/daemon/communicatord.cpp:3542-3674 | over a run of any length the copies of one identifier are delivered at most bound times (daemons + 1) times |
| FloodCoverage.LaunchedTo | communicator/daemon/communicatord.cpp:3380-3540 | a broadcast is sent to exactly the neighbours not informed, and to nobody after five hops |
| FloodCoverage.SpreadAccept | communicator/daemon/communicatord.cpp:3380-3540 | accepting a copy keeps the exact account of who was sent one |
| FloodCoverage.RunSpreads | communicator/daemon/communicatord.cpp:3380-3540 | that account holds in every run with static links |
| FloodReach.SentExactly | communicator/daemon/communicatord.cpp:3380-3540 | those sent a copy are exactly the neighbours of the originator and of daemons that accepted at fewer than five hops |
| FloodReach.InformedWereSent | communicator/daemon/communicatord.cpp:3517-3537 | every address in a copy's informed list was really sent a copy |
| FloodReach.ChainNeverRepeats | communicator/daemon/communicatord.cpp:3590-3674 | with static links the chain of a copy is a walk without repetitions, so the originator can only be its end |
| FloodReach.DeliveredMeansAccepted | communicator/daemon/communicatord.cpp:1825-1870 | a copy delivered in time leaves the identifier accepted |
| FloodReach.ReachedExactly | communicator/daemon/communicatord.cpp:3380-3540 | when no copy is in flight a daemon has accepted exactly if it is such a neighbour |
| FloodReach.CoveredWhenShort | communicator/daemon/communicatord.cpp:3380-3540 | a connected cluster of any size is covered when no chain from the originator makes more than five hops; a condition on the links alone |
| FloodReach.SimpleWalksSuffice | communicator/daemon/communicatord.cpp:3380-3381 | that is so if every walk without repetitions from the originator has at most six daemons |
| FloodReach.FarIsNotReached | communicator/daemon/communicatord.cpp:3380-3381 | a daemon that is more than five links away is never reached, in any run |
| FloodReach.CoveredUnlessFar | communicator/daemon/communicatord.cpp:3380-3381 | a connected cluster of any size is covered unless a daemon first accepted at the fifth hop |
| FloodReach.QuiescentCoverage | communicator/daemon/communicatord.cpp:3380-3540 | a connected cluster of at most six daemons is covered when no copy is in flight |
| FloodReach.Horizon | communicator/daemon/communicatord.cpp:3380-3381 | no copy goes further than five links from the originator |
| FloodReach.SentBackExactly | communicator/daemon/communicatord.cpp:3596-3604 | the originator is sent its own message exactly when an accepting daemon below five hops has a link to it |
| FloodReach.OriginatorHearsItself | communicator/daemon/communicatord.cpp:3596-3604 | with two-way links every broadcast accepted by anybody is accepted by its originator too |
| FloodReach.EchoExactly | communicator/daemon/communicatord.cpp:3596-3604 | with two-way links and no link to itself the originator accepts its own broadcast exactly if it has a neighbour |
| FloodReach.NeverSentBack | communicator/daemon/communicatord.cpp:3596-3604 | if no daemon within four links of the originator has a link to it, no copy is sent back in any static run |
| FloodMeaning.NeighboursExactly | communicator/daemon/communicatord.cpp:3472-3515 | the neighbours of these results are the daemons behind private links, and public ones for "*" |
| FloodMeaning.LocalNeverTravels | communicator/daemon/communicatord.cpp:3380-3381 | in every run no copy in flight is for service "." |
| FloodMeaning.CopyCameOver | communicator/daemon/communicatord.cpp:3472-3515 | in static runs every copy of a "?" broadcast came over a private link |
| FloodSettles.Settles | communicator/daemon/communicatord.cpp:3274-3346 | from any point of a reliable run, deliveries alone bring a broadcast to rest before its timeout |
| FloodNearest.NearestReaches | communicator/daemon/communicatord.cpp:3380-3540 | delivering copies with the fewest hops first reaches exactly the daemons within five links |
| FloodNearest.CoverageIsPossible | communicator/daemon/communicatord.cpp:3380-3381 | some continuation covers the cluster if and only if every daemon is within five links of the originator |
| FloodService.ServedAtMost | communicator/daemon/communicatord.cpp:3414-3470 | in every run, with losses, reconnections and purges, a connection is handed a broadcast at most once, or twice at its originator |
| FloodService.ServedExactly | communicator/daemon/communicatord.cpp:3414-3470 | exactly the services that understand it are handed it: once if their daemon accepted it and once if their daemon issued it |
| FloodService.EveryServiceServed | communicator/daemon/communicatord.cpp:3414-3540 | at rest on a connected cluster with two-way links and short chains every understanding service got it once, the originator's twice |
| FloodDirected.DirectedRelay | communicator/daemon/communicatord.cpp:1499-1787 | a message for a named server leaves only over remote links of that server |
| FloodDirected.DirectedOneHop | communicator/daemon/communicatord.cpp:1762-1787 | in every run with true links a directed message makes one hop, to its server |
| FloodDirected.DirectedCount | communicator/daemon/communicatord.cpp:3542-3674 | there is one copy of a directed message: delivered, in flight or lost |
| FloodDirected.DirectedAtMostOnce | communicator/daemon/communicatord.cpp:1640-1667 | a directed message is handed at most once, and only to the first connection with the service's name at its server |
| FloodDirected.DirectedServedOnce | communicator/daemon/communicatord.cpp:1640-1667 | in time and without losses that connection is handed it exactly once, and no other is |
| FloodLine.LineCoveredExactly | communicator/daemon/communicatord.cpp:3380-3381 | in a line of daemons a settled broadcast from the end has reached everybody if and only if there are at most six |
| FloodLine.LongLineMissed | communicator/daemon/communicatord.cpp:3380-3381 | every line of seven or more has a settled run that misses a daemon |
| FloodLine.LetterIsRead | communicator/daemon/communicatord.cpp:1640-1667 | a line of two or more has a run in which a directed message is delivered and read once |
| FloodLine.EchoHappens | communicator/daemon/communicatord.cpp:3596-3604 | every line of two to six has a settled run with everybody reached and the originator's service served twice |
| MessageCache.Lifetime | communicator/daemon/cache.cpp:147-178 | a message is kept 10 to 86400 seconds, the requested duration rounded up if it is in range |
| MessageCache.HandedOverExactly | communicator/daemon/communicatord.cpp:3118-3128 | a flush hands over exactly the messages for the service, late or not |
| MessageCache.KeptExactly | communicator/daemon/cache.cpp:201-235 | exactly what is for another service and not past its deadline stays |
| MessageCache.PutExactly | communicator/daemon/cache.cpp:92-198 | a message is stored last with a deadline in range, unless it asks otherwise, and what the caller is told |
| MessageCache.Cache.CacheMessage | communicator/daemon/cache.cpp:92-198 | what is stored and what the caller is told |
| MessageCache.Cache.RemoveOldMessages | communicator/daemon/cache.cpp:201-216 | the erasing loop leaves the messages that are not past their deadline, in order |
| MessageCache.Cache.ProcessMessages | communicator/daemon/cache.cpp:219-235 | the flush hands over every message of the service, late or not, and erases those and the late ones |
| CacheRuns.FlushConserves | communicator/daemon/cache.cpp:219-235 | a flush splits the cache in kept, handed over and erased, each message once |
| CacheRuns.EveryMessageOnce | communicator/daemon/cache.cpp:92-235 | over every run each cached message is delivered once, erased strictly after its deadline, or held; deadlines lie 10 to 86400 seconds ahead |
| CacheRuns.DeliveriesInOrder | communicator/daemon/cache.cpp:219-235 | the messages of one service are delivered in the order they arrived |
| CacheRuns.RegisterSendsExactly | communicator/daemon/communicatord.cpp:3115-3128 | after any run a registering service is sent exactly what is cached for it, none of it stays, and the others' messages stay |
| CacheRuns.PurgeExactly | communicator/daemon/cache.cpp:201-216 | the timer removes exactly what is past its deadline and sends nothing |
| CacheRuns.ReplayMatchesCache | communicator/daemon/communicatord.cpp:3115-3128 | the entries followed above are the contents of the cache and the messages it sent |
| RemoteCommunicatorsClass.RemoteCommunicators.AddRemoteCommunicator | communicator/daemon/remote_communicators.cpp:112-248 | all branches of adding an address, with a dispatcher that may refuse |
| RemoteCommunicatorsClass.RemoteCommunicators.ConnectionLost | communicator/daemon/remote_communicators.cpp:387-427 | one gossip connection per address, kept only if the dispatcher takes it |
| RemoteCommunicatorsClass.RemoteCommunicators.GossipWasReceived | communicator/daemon/remote_communicators.cpp:361-369 | the gossip connection is unregistered and dropped |
| RemoteCommunicatorsClass.RemoteCommunicators.StopGossiping | communicator/daemon/remote_communicators.cpp:259-266 | the emptying loop unregisters exactly the gossip connections |
| RemoteCommunicatorsClass.RemoteCommunicators.TooBusy | communicator/daemon/remote_communicators.cpp:289-303 | a dialled connection pauses for a day |
| RemoteCommunicatorsClass.RemoteCommunicators.ShuttingDown | communicator/daemon/remote_communicators.cpp:315-333 | a dialled connection pauses for five minutes |
| RemoteCommunicatorsClass.RemoteCommunicators.ForgetRemoteConnection | communicator/daemon/remote_communicators.cpp:430-450 | both maps lose the address; only the dialled connection is unregistered |
| RemoteCommunicatorsRuns.RunSound | communicator/daemon/remote_communicators.cpp:112-450 | in every run, failures and FORGET included, the own address is unknown, only smaller known addresses are dialled and no object is held twice |
| RemoteCommunicatorsRuns.KnownExactly | communicator/daemon/remote_communicators.cpp:121-176 | an address is known exactly if it was ever added and is not our own |
| RemoteCommunicatorsRuns.DialledExactly | communicator/daemon/remote_communicators.cpp:131-231 | a smaller address is dialled exactly if its first connection was taken and it was not forgotten since |
| RemoteCommunicatorsRuns.MembershipKept | communicator/daemon/remote_communicators.cpp:112-427 | without FORGET or refusals all smaller known addresses and no others are dialled, and what is registered is what the two maps hold |
| RemoteCommunicatorsRuns.MemberStop | communicator/daemon/remote_communicators.cpp:259-266 | after stop_gossiping only the dialled connections are registered |
| RemoteCommunicatorsRuns.ForgetLeaks | communicator/daemon/remote_communicators.cpp:430-450 | FORGET keeps the registered set right exactly when the address had no gossip connection |
| RemoteCommunicatorsRuns.TimerExactly | communicator/daemon/remote_communicators.cpp:146-333 | in every run the timer of a dialled address is the one its operations ask for |
| RemoteCommunicatorsRuns.AddedAgain | communicator/daemon/remote_communicators.cpp:131-176 | adding a dialled address again makes the same connection try now and then daily if it is down, and changes nothing otherwise |
| RemoteCommunicatorsRuns.GossipExactly | communicator/daemon/remote_communicators.cpp:234-450 | in every run an address is gossiped to exactly as its operations ask |
| RemoteCommunicatorsRuns.StartIsDate | communicator/daemon/remote_communicators.cpp:199-204 | a new connection carries the start date recorded for it |
| RemoteCommunicatorsRuns.StaggeredDates | communicator/daemon/remote_communicators.cpp:196-210 | the i-th start date is the maximum of now_j + (i - j) over j up to i |
| RemoteCommunicatorsRuns.StaggeredBounds | communicator/daemon/remote_communicators.cpp:196-210 | dates are a second apart, never in the past, and late by at most i seconds if the clock does not go back |
| Neighbors.NeighborList.AddNeighbors | communicator/daemon/communicatord.cpp:4053-4086 | ranges and loopback addresses are skipped, new neighbors are added and connected to |
| Neighbors.NeighborList.RemoveNeighbor | communicator/daemon/communicatord.cpp:4111-4142 | the neighbor and its connections are dropped |
| NeighborRuns.NeighborsAreKnown | communicator/daemon/communicatord.cpp:4077-4085 | in every run each neighbor is a known address or our own |
| NeighborRuns.ListedExactly | communicator/daemon/communicatord.cpp:4053-4142 | in every run the neighbors are the addresses listed by themselves and not dropped since |
| NeighborRuns.KnownAreNeighbors | communicator/daemon/communicatord.cpp:4077-4085 | without FORGET the known addresses are exactly the other neighbors |
| NeighborRuns.NeighborsExactly | communicator/daemon/communicatord.cpp:1168-1185 | a daemon that started with its own address and dropped nobody has itself and the known addresses for neighbors |
| NeighborRuns.LinksAreRun | communicator/daemon/communicatord.cpp:4077-4085 | the connections after a history of the list are those after the run it asked for |
| NeighborRuns.RelearnedHasNoConnection | communicator/daemon/communicatord.cpp:4111-4142 | a dropped neighbor that is learned again is counted, and gets no connection exactly if its address was known or the dispatcher refuses |
| Mesh.OneDialler | communicator/daemon/remote_communicators.cpp:178-247 | of two daemons that know each other exactly the one with the larger address dials |
| Mesh.TotalDials | communicator/daemon/remote_communicators.cpp:178-247 | n daemons make n(n-1)/2 permanent connections |
| Mesh.FullMesh | communicator/daemon/communicatord.cpp:3837-3895 | with all of them up each daemon has the whole cluster for neighbors, counts n-1 peers and finds the cluster up and complete |
| Mesh.UpPeersMeet | communicator/daemon/communicatord.cpp:3837-3854 | two daemons without a connection that both find the cluster up share a live peer |
| Mesh.NoSplitBrain | communicator/daemon/communicatord.cpp:3837-3854 | of two groups with no connection between them and no third daemon connected to both, at most one finds the cluster up |
| Mesh.UpOutsideMinority | communicator/daemon/communicatord.cpp:3837-3854 | a daemon without a connection to a group finds the cluster up only if the group has less than half of the daemons |
| Mesh.SplitBrainExactly | communicator/daemon/communicatord.cpp:3837-3854 | two groups without a connection between them can both be up if and only if each has less than half of the daemons |
| Mesh.CutInTwo | communicator/daemon/communicatord.cpp:3837-3854 | a cluster cut in two is never up on both sides |
| Mesh.CutOffGroups | communicator/daemon/communicatord.cpp:3837-3854 | groups cut off from everybody else are such groups |
| Mesh.BridgeKeepsBothUp | communicator/daemon/communicatord.cpp:3837-3854 | two daemons without a connection both find it up through a third |
| Mesh.DoubleCountSplits | communicator/daemon/remote_communicators.cpp:515-543 | with two sockets to every peer, groups that are cut off are both up exactly if twice the others of each are at least half of the cluster; halves are from four daemons on |
| Mesh.HalvesOfFour | communicator/daemon/remote_communicators.cpp:515-543 | two halves of four daemons, each with a permanent and a gossip socket, are both up |
| ClusterStatusClass.ClusterMonitor.CountLiveConnections | communicator/daemon/remote_communicators.cpp:474-543 | the loop counts the connected dialled daemons and the open remote sockets |
| ClusterStatusClass.ClusterMonitor.ClusterStatus | communicator/daemon/communicatord.cpp:3830-3946 | an update stores and broadcasts what changed; a query only replies |
| ClusterStatusRuns.ChangesMeaning | communicator/daemon/communicatord.cpp:3855-3857 | a stream of changes ends with the last value and never repeats one |
| ClusterStatusRuns.StreamsAreChanges | communicator/daemon/communicatord.cpp:3850-3946 | each broadcast stream is exactly the changes of what the updates computed, and the last is stored |
| ClusterStatusRuns.AnnouncementsTrackState | communicator/daemon/communicatord.cpp:3850-3946 | the last broadcasts equal the stored status, completeness and total, none repeats the one before, and the status file agrees |
| ClusterStatusRuns.QueriesChangeNothing | communicator/daemon/communicatord.cpp:2109-2123 | a run without its queries ends the same, broadcasts included |
| ClusterStatusRuns.HangUpsGoUnannounced | communicator/daemon/service_connection.cpp:252-272 | after any losses the announced status is wrong exactly if the quorum lies between the old and the new count, and completeness exactly if one of the two counts is the total |
| ClusterStatusRuns.HangUpGoesUnannounced | communicator/daemon/service_connection.cpp:252-272 | after one hang-up the status is right exactly if the count was not just the quorum, and completeness exactly if it was neither the total nor one more |
| ClusterStatusRuns.HangUpMisleads | communicator/daemon/service_connection.cpp:252-272 | two daemons: after the other one hangs up the cluster stays announced as up and complete |
| ClusterStatusRuns.LiveExactly | communicator/daemon/remote_communicators.cpp:474-543 | the count is the number of connected dialled daemons and open remote connections |
| ClusterStatusRuns.QuorumIsMajority | communicator/daemon/communicatord.cpp:3837-3854 | up means a strict majority of the neighbors, complete means all of them |
| ClusterStatusRuns.QueryAnswered | communicator/daemon/communicatord.cpp:3858-3946 | which replies a query gets, and that they say what an update would have broadcast |
| ClusterStatusRuns.CompleteIsUp | communicator/daemon/communicatord.cpp:3893-3895 | a complete cluster is up |
| FlagNames.NameExactly | communicator/flags.cpp:1303-1319 | names are exactly alphanumeric segments joined by single dashes, starting with a letter |
| FlagNames.LowerKeepsName | communicator/flags.cpp:1357-1363 | lowercasing is idempotent and keeps names names |
| FlagNames.LowerExactly | communicator/flags.cpp:1357-1363 | capital letters become small ones and nothing else changes |
| FlagNames.FileNameReads | communicator/flags.cpp:696-707 | a file name is read back as directory, unit, section and name, in this order |
| FlagNames.CheckCharacter | communicator/flags.cpp:1334-1371 | which character may come next and what it becomes |
| FlagNames.ValidName | communicator/flags.cpp:1320-1385 | accepts exactly the names, lowercased in place; otherwise only a prefix was lowercased |
| FlagNames.FileNamesExactly | communicator/flags.cpp:696-707 | two flags share a file exactly if their names are equal ignoring case or there is no flags directory |
| Flags.Flag.GetFilename | communicator/flags.cpp:696-707 | the file name is built once from the names and then kept |
| Flags.NewFlag | communicator/flags.cpp:231-252 | a flag is created exactly if all three names are valid, and holds them lowercased |
| LoadAverageClass.LoadavgFile.LoadFrom | communicator/loadavg.cpp:84-138 | the records of the file are appended to the table |
| LoadAverageClass.LoadavgFile.SaveTo | communicator/loadavg.cpp:141-181 | the records are written over the file, whose tail stays |
| LoadAverageClass.LoadavgFile.AddItem | communicator/loadavg.cpp:184-204 | the first record of the address is updated, or a record is appended |
| LoadAverageClass.LoadavgFile.RemoveOldEntries | communicator/loadavg.cpp:235-248 | exactly the records before the limit are removed, and the result says whether any was |
| LoadAverageClass.LoadavgFile.Find | communicator/loadavg.cpp:260-276 | the first record of the address, or none |
| LoadAverageClass.LoadavgFile.FindLeastBusy | communicator/loadavg.cpp:296-312 | the first record with the smallest average, or the first record if it is not a number; none if there are no records |
| LoadAverageClass.SaveLoadavg | plugins/communicatord_loadavg/loadavg.cpp:249-282 | a report is refused or goes through load, add and save |
| LoadAverageState.SaveThenLoad | communicator/loadavg.cpp:141-181 | saving and loading gives the table back exactly if the old file was not longer |
| LoadAverageRuns.FileIsTable | plugins/communicatord_loadavg/loadavg.cpp:278-281 | after any reports the file holds each address once, in order of first report, with its last report |
| LoadAverageRuns.FindIsLatest | communicator/loadavg.cpp:260-276 | a search finds the last report taken from the address |
| LoadAverageRuns.LeastBusyIsLeast | communicator/loadavg.cpp:296-312 | the record found is the last report of its address, and no last report is lower if and only if the address that reported first did not report "nan" last |
| LoadAverageRuns.ReportExactly | plugins/communicatord_loadavg/loadavg.cpp:266-281 | a negative or too old report changes nothing; any other is what the file then holds for its address alone |
| LoadAverageClass.RecentExactly | communicator/loadavg.cpp:235-248 | exactly the records not older than the limit stay |
| LoadAverageClass.RecentInOrder | communicator/loadavg.cpp:235-248 | and stay in their order |
| LoadAverageState.FoundIsSmallest | communicator/loadavg.cpp:296-312 | among numbers the record found is the first with the smallest |
| LoadAverageState.FoundUnique | communicator/loadavg.cpp:296-312 | that record is determined by the table |
| LoadAverageState.FoundIsLeast | communicator/loadavg.cpp:296-312 | in a table with records, the one found is a least busy one if and only if the first is a number |
| LoadAverageRuns.NanIsFound | plugins/communicatord_loadavg/loadavg.cpp:266-270 | a first report of "nan" is found whatever another address reports |
| BlockedIps.BlockList.BlockIp | communicator/daemon/service_connection.cpp:350-395 | the table after a hit, and a BLOCK when the count is at least three |
| BlockedIps.CountIsStreak | communicator/daemon/service_connection.cpp:352-375 | the count of an address is the length of its longest run of last hits at most 900 seconds apart |
| BlockedIps.BlockExactly | communicator/daemon/service_connection.cpp:377-394 | a hit broadcasts a BLOCK exactly if that length is at least three |
| RemoteConnectionClass.RemoteConnection.ProcessConnectionFailed | communicator/daemon/remote_connection.cpp:146-245 | counter, start of the outage, hang-up and flag after a failure |
| RemoteConnectionClass.RemoteConnection.ProcessConnected | communicator/daemon/remote_connection.cpp:248-287 | state and flag after a connection |
| RemoteConnectionClass.RemoteConnection.ProcessMessage | communicator/daemon/remote_connection.cpp:133-143 | the first message names the peer for good |
| RemoteConnectionRuns.StateDescribesRun | communicator/daemon/remote_connection.cpp:146-287 | the counter is the saturated number of failures of the outage, and the flag is up exactly if one of them was alarming |
| RemoteConnectionRuns.RaisedExactly | communicator/daemon/remote_connection.cpp:202-208 | the flag is raised exactly at the first failure with at least 20 of them and more than an hour since the first |
| RemoteConnectionRuns.TakenDownExactly | communicator/daemon/remote_connection.cpp:252-272 | the flag is taken down at the first connection and after every outage |
| RemoteConnectionRuns.RaisesAreSeparated | communicator/daemon/remote_connection.cpp:202-272 | between two raises there is a take-down |
| RemoteConnectionRuns.HangUpExactly | communicator/daemon/remote_connection.cpp:157-168 | a failure is signalled as a hang-up exactly if the peer had named itself and its connection was up |
| RemoteConnectionRuns.HangUpOnce | communicator/daemon/remote_connection.cpp:157-168 | between two hang-ups there is a connection |

## Left out

- Sockets, TLS, UDP, the event loop, logging, option parsing, plugins, privileges and the command line tools.
- Parsing and printing of addresses, durations and the cache parameter: an address is a number with its order, a duration is a real.
- The results on directed messages assume that a connection marked remote leads to the server it names, and that links stay as they are.
- One address per daemon and unique server names are assumed; a refused CONNECT is what the source relies on for the latter.
- A restart of a daemon: it resets the counter and the memory of identifiers, so the identifier results hold within one process lifetime.
- Local services are assumed not to set the broadcast parameters themselves, and the parameters come together or not at all.
- CommunicatordDaemon.Communicatord.SendCopies: omits the parameters secure_remote and broadcast_originator, which nothing reads.
- CommunicatordDaemon.Communicatord.BroadcastMessage: omits these two parameters too, and reads the clock once.
- CommunicatordDaemon.Communicatord.CacheLocally: sends no reply when the message has no sender, where the source would use the missing sender unchecked.
- CommunicatordDaemon.Communicatord.ForwardMessage: inherits what ForwardToService and BroadcastMessage leave out.
- Clocks start at or after zero, and the message counter and hit counter do not overflow their 64 and 32 bits.
- CommunicatordDaemon.Communicatord.DispatchMessage: reads the clock once where the source reads it at the gate and again in the broadcast; a shutting down daemon only drops the message, without the QUITTING reply.
- CommunicatordDaemon.Communicatord.SearchConnections: is the build without debugging, where a connection without server name is skipped instead of throwing.
- CommunicatordDaemon.Communicatord.ForwardToService: exceptions of a failing send are not modelled, and a sender is a place in the connection list.
- CommunicatordDaemon.Communicatord.Register: is only the flush of the cache; the rest of REGISTER is not modelled.
- RemoteCommunicatorsClass.RemoteCommunicators.AddRemoteCommunicator: a connection object is a handle and its timer fields; that the dispatcher and the map share the object is not modelled.
- Neighbors.NeighborList.AddNeighbors: starts from parsed entries; reading and saving the file of neighbors is not modelled.
- Neighbors.NeighborList.RemoveNeighbor: saving the file of neighbors is not modelled.
- ClusterStatusClass.ClusterMonitor.ClusterStatus: takes the writing of the status file to succeed.
- MessageCache.Cache.CacheMessage: starts from the parsed cache parameter.
- MessageCache.Cache.ProcessMessages: the callback is the one msg_register passes, a comparison of the service name.
- LoadAverageClass.LoadavgFile.LoadFrom: a file is absent or a readable list of records; damaged headers and partial records are not modelled, and averages are not rounded to 32 bits.
- LoadAverageClass.LoadavgFile.SaveTo: opening, locking and writing the file are taken to succeed.
- LoadAverageClass.SaveLoadavg: starts from the parsed report, and takes the file operations to succeed.
- RemoteConnectionClass.RemoteConnection.ProcessConnected: the reset of the retry delay and the notice to the server, which introduces this daemon to the peer, are not modelled.
- RemoteConnectionClass.RemoteConnection.ProcessMessage: is only the naming of the peer; the dispatch of the message is Communicatord.DispatchMessage.
- FloodService.ServedExactly: a message that leaves for no other daemon never gets an identifier, so what its own services are handed then is not counted here; BroadcastServes states it.
- refresh_heard_of, get_services and get_services_heard_of: their merge calls move elements the other way round, so the documented union is not what they compute.
- Clock checking, the load timer, credentials, status messages and the gossip back-off.
