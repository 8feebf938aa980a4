# A verified model of cpp-gossip

cpp-gossip is a C++ implementation of the SWIM membership protocol: every process keeps a table of the members it
knows, spreads Alive, Suspect and Dead messages by gossip, probes one member after the other, and exchanges full
tables by push/pull. This project models its state machine in Dafny and proves what the protocol promises: over every
run of one member whatever messages arrive, over every run of a cluster whose network loses, repeats and reorders
messages, and over every history of the broadcast queue.

`dafny verify dfyconfig.toml` checks everything.

## Layout

| file | content |
|---|---|
| `Wire.dfy`, `Encoding.dfy` | messages, `uint32_t`, encoded sizes; the bytes of a broadcast |
| `BroadcastOrder.dfy` | the queue as a value: order, `std::set` operations, packet filling as one first-fit pass |
| `BroadcastQueue.dfy` | the queue object with its two indexes; its loops refine the functions above |
| `QueueHistory.dfy` | retransmit bound, conservation and draining over whole histories |
| `Scaling.dfy`, `Suspicion.dfy` | retransmit limit; confirmations, timeouts and the timer object |
| `ProbeSchedule.dfy` | round-robin probing under arbitrary shuffles |
| `Protocol.dfy` | one member as a value and its handlers as functions |
| `ProtocolEffects.dfy` | what each message, entry and call does, written out in the fields it meets |
| `ProtocolInvariant.dfy`, `ProtocolLaws.dfy`, `Quiescence.dfy` | what every handler keeps, and laws of one member over arbitrary runs |
| `Cluster.dfy`, `ClusterLaws.dfy`, `ClusterQuiescence.dfy` | the cluster as a step relation, its invariant, and the theorems about every run |
| `Memberlist.dfy` | the member as an object with shared node states, timers and queue; each method refines its function in `Protocol` |

The object and the value are connected by `View`: every handler of `Memberlist` is proved to change `View()` exactly
as the function of the same name in `Protocol` says, so the laws about those functions hold of the object.

## Assumptions

* A handler body under `nodeMutex` is one atomic step; so are `Leave` and `UpdateNode`. A suspicion callback is two
  steps: its test, and later its `deadNode`. A callback that `Confirm` finds due runs as a later step, too.
* Runs start in the state that `setAlive` leaves.
* In the cluster, names are unique, every name has one fixed address, nobody restarts, and no incarnation counter
  wraps (`Enabled` asks for two free values above the counter). The laws of a single member hold for wrapping counters,
  too, unless they say otherwise. Queue histories assume that broadcast ids do not wrap; the object `Memberlist` assumes
  only that the next id is not in use by a queued broadcast (`CanSubmit`), the queue object not even that.
* Results of `rand` and `random_shuffle`, clock readings, lost or repeated packets and failed probes are arbitrary.
* The logarithms of the suspicion timeouts are any strictly increasing functions that are 0 at 1, computed exactly;
  `ceil(log10(n + 1))` is computed in integers.
* A message is shorter than `SIZE_MAX` bytes. Two values that the code leaves uninitialised (`haveMsg`, `StateChange`
  of a new node) and the timeout that divides by `log(1)` are parameters that can be anything.

## Where the code differs from its comments or from what one expects

Each point names the theorem that says exactly when the code does what was promised.

* The overhead is charged once per packet, not once per message. The promise of the comment holds of every queue if and
  only if there is no overhead or no room for two messages (`PerMessageOverhead`, `PerMessageOverheadEncoded`);
  `PerMessageFails` is a queue of two.
* A waiter is not notified once, when transmission is finished, but once for every packet that carries its broadcast and
  once more when the broadcast leaves the queue (`NotifiedWhenSent` for a packet, `WaiterNotified` for whole histories).
* The waiter of `UpdateNode` is never notified, neither during the call nor later, because the broadcast that goes out is
  that of a refutation (`Memberlist.UpdateNode`), and the update costs two incarnations (`UpdateIsRefuted`).
* `Prune` keeps the least items of the order, although its comment says the latest. For a given number to keep, the two
  agree whatever the ids are if and only if all items have the same tier and length (`PruneKeepsLatest`;
  `PruneKeepsTheOlder` is a failure).
* `Confirm` takes one confirmation beyond k, and exactly from then on the timeout is below its minimum
  (`TimeoutWithinBounds`).
* A confirmation is gossiped with its own incarnation but does not raise the stored one, so suspicions need not commute
  (`SuspicionsDoNotCommute`); they do if and only if they are not two different claims about an alive member
  (`SuspicionsCommute`).
* Receiving a message twice is not always the same as once: it fails exactly when the wait for a dead member's
  address ends in between (`LateClaimsHappen` is such a run), or when the message is about ourselves at UINT32_MAX and our
  answer wraps to incarnation 0 (`RedeliveryIsNoOp`).
* Incarnations and ranks of remote members can fall: exactly when the address of a departed or long dead member is taken
  over with a lower incarnation, or for the rank with one that is not higher (`IncarnationFallsIff`, `GossipPaysIff`). A
  record of a departed member changes exactly on an Alive from another address or with news (`LeftChangesIff`).
* Our own record keeps the incarnation of our counter until we leave exactly if `UpdateNode` never meets a counter of
  UINT32_MAX (`RecordFollowsCounter`). Gossip is bounded by bounded incarnations exactly up to UINT32_MAX - 2
  (`AllGossipQuiesces`, `GossipUnbounded`).
* `GetBroadcasts` reports a message where there is none exactly if the queue is not empty, nothing fits and its
  uninitialised flag happens to be set (`BroadcastQueue.GetBroadcasts`).
* A call of `probe` may probe nobody although there are eligible members, because the wrap-around uses up a check;
  `CallProbesIff` says when, and `BoundIsTight` what it costs.
* `std::set::insert` drops an item whose three keys are taken (`InsertRefuses`). A submission keeps the two indexes of
  the queue in agreement if and only if its id is not in use, which only a wrapped id generator can bring about
  (`SubmitKeepsIff`).

## Model

| member | source | states |
|---|---|---|
| ClusterLaws.NoResurrection | src/memberlist/state.cpp:278-576 | In every reachable cluster state, a record of x as Left at any observer stays exactly as it is in all further runs, whatever is lost, repeated or reordered. |
| ClusterLaws.IncarnationProvenance | src/memberlist/state.cpp:265-576 | In every reachable cluster state, no table, queue, pending call, sent message or snapshot carries an incarnation of x above the one x holds for itself, which equals x's counter until x leaves. |
| ClusterLaws.NoFalseDeparture | src/memberlist/memberlist.cpp:204-235 | A Left record of x, or a Dead message from x about x, exists anywhere in a reachable state only if x itself called Leave earlier in the run. |
| ClusterLaws.DepartureReaches | src/memberlist/state.cpp:513-576 | From every reachable state, the one packet a leaving member sends, delivered to any member that knows it, stops its timer there and makes the record Left with the last incarnation, if and only if it was not held Dead already. |
| ClusterLaws.SnapshotOfDeparture | src/memberlist/state.cpp:789-792 | From every reachable state, merging a Left entry at a member that holds its subject alive or suspect makes the record Left with the departed member's last incarnation, stops the suspicion and is gossiped as Dead(inc, x, x). |
| ClusterLaws.SnapshotOfSuspicion | src/memberlist/state.cpp:793-798 | From every reachable state, merging a Suspect or Dead entry that is not outdated, about a member held alive, makes it suspect with the merging member as the only confirmer and is gossiped as that member's suspicion. |
| ClusterLaws.SnapshotSpreads | src/memberlist/state.cpp:761-802 | From every reachable state, whom a knows as alive o learns from a snapshot of a, under the same record, and gossips. |
| ClusterLaws.TimeoutKills | src/memberlist/state.cpp:487-508 | From every reachable state in which the callback of a suspicion passes its test, its second half makes the record Dead with the suspected incarnation and the time of the second half, ends the timer and is gossiped. |
| ClusterLaws.ProbeAccuses | src/memberlist/state.cpp:190-195 | From every reachable state, a failed probe of an alive member makes it suspect with the prober as the only confirmer and is gossiped; one of a suspect is sent to the suspect. |
| ClusterLaws.AnnouncementReaches | src/memberlist/memberlist.cpp:298-313 | From every reachable state, one packet after UpdateNode makes any other member hold the announcing one alive, two incarnations further on. |
| ClusterLaws.EveryClusterStarts | src/memberlist/memberlist.cpp:23-31 | Members with any distinct names and any configurations form an initial cluster state, so the theorems about runs speak of every such cluster. |
| ClusterLaws.RefutationWins | src/memberlist/state.cpp:265-276 | From every reachable state in which an accusation that is not outdated reaches x, by gossip or in a push/pull entry, one packet of x delivered to any other member makes x Alive there with a higher incarnation and stops its timer, even if it was held Suspect or Dead. |
| ClusterLaws.OnlyOthersAccused | src/memberlist/state.cpp:193-195 | In every reachable state the calls that a member's timers and probes still have to make are about others, never about the member itself. |
| ClusterLaws.RefutationTopsEverything | src/memberlist/state.cpp:444-455 | However the accusation arrives, the refuting incarnation is above it and above everything all other tables, queues, pending calls, messages and snapshots hold about x. |
| ClusterLaws.RefutationAccepted | src/memberlist/state.cpp:346-407 | An Alive above an observer's incarnation, however it arrives, is accepted in any state of the record, clears the timer and is gossiped on. |
| ClusterLaws.NextKeeps | src/memberlist/state.cpp:278-576 | Every step of any member keeps the cluster invariant; counters and own incarnations never fall, and leaving freezes the latter. |
| ClusterLaws.RunKeepsCluster | src/memberlist/state.cpp:278-576 | So does every run. |
| ClusterLaws.InitKeeps | src/memberlist/memberlist.cpp:23-31 | A cluster of members that have just called setAlive satisfies the invariant. |
| ClusterLaws.LeavingMeansLeft | src/memberlist/memberlist.cpp:204-235 | After a run, x's leave flag is set exactly if it was set before or the run contains a Leave of x. |
| ClusterLaws.AccusationOk | src/memberlist/state.cpp:487-508 | A Dead or Suspect message that a timer or a failed probe raises about somebody else carries a known incarnation and never claims a departure. |
| ClusterLaws.SuspectIsOther | src/memberlist/state.cpp:450-455 | A suspicion that times out is never about the local member. |
| ProtocolEffects.AliveIntroduces | src/memberlist/state.cpp:297-320 | An Alive about an unknown member stores and gossips it as it is, or with incarnation 0 stores it as dead without gossip. |
| ProtocolEffects.AliveRenews | src/memberlist/state.cpp:346-407 | Under the known address, an Alive about somebody else is stored and gossiped as it is, ending the suspicion, if and only if its incarnation is higher; StateChange stays if the record was alive. |
| ProtocolEffects.AliveReclaims | src/memberlist/state.cpp:321-344 | Under another address, it is stored and gossiped as it is if and only if the record is Left, or Dead for at least the configured positive time; otherwise nothing changes. |
| ProtocolEffects.OwnMessageAnswered | src/memberlist/state.cpp:265-276 | A message about ourselves is answered with the greater of our counter and one more than it claims, if and only if we have not left and it is not outdated, or for an Alive claims more under our address; otherwise nothing changes. |
| ProtocolEffects.ExpectedConfirmations | src/memberlist/state.cpp:468-481 | A new timer waits for two confirmations less than the multiplier, or for none if there are fewer nodes than the multiplier. |
| ProtocolEffects.SuspicionOpens | src/memberlist/state.cpp:444-510 | The first suspicion of an alive member stores its incarnation and time, is gossiped, and starts a timer whose only confirmer is the sender. |
| ProtocolEffects.SuspicionConfirmed | src/memberlist/state.cpp:433-441 | A further suspicion is counted and gossiped on as it came, leaving the record, if and only if it is not outdated, its sender is new and no more than k were counted. |
| ProtocolEffects.SuspicionIgnored | src/memberlist/state.cpp:415-447 | Any other suspicion of somebody else changes nothing. |
| ProtocolEffects.DeathStored | src/memberlist/state.cpp:527-575 | A Dead that is not outdated about a member held alive or suspect stores its incarnation and the current time, as Left if it comes from its subject and as Dead otherwise, ends the suspicion and is gossiped. |
| ProtocolEffects.DeathIgnored | src/memberlist/state.cpp:518-539 | Any other Dead about somebody else changes nothing. |
| ProtocolEffects.DepartureAnnounced | src/memberlist/memberlist.cpp:211-235 | The first Leave marks our record as Left at that time under its last incarnation and replaces whatever was queued about us by the announcement; later calls change nothing. |
| ProtocolEffects.FirstAnnouncement | src/memberlist/memberlist.cpp:23-31 | After setAlive the table knows only us, alive with incarnation 1, and that is queued. |
| ProtocolEffects.CallbackFires | src/memberlist/state.cpp:487-508 | If nothing has changed the record since the first suspicion, whatever else happened, its callback passes the test and its Dead makes the record Dead. |
| ProtocolEffects.MergedDeparture | src/memberlist/state.cpp:789-792 | A Left entry is stored and gossiped as the departure it reports. |
| ProtocolEffects.MergedSuspicion | src/memberlist/state.cpp:793-798 | A Suspect or Dead entry about a member held alive becomes a suspicion of our own. |
| ProtocolEffects.MergedAlive | src/memberlist/state.cpp:785-788 | An Alive entry with a higher incarnation is stored and gossiped as it is. |
| ProtocolEffects.SnapshotIsTable | src/memberlist/state.cpp:761-773 | A snapshot says of every known member what the table says, and of nobody else. |
| ProtocolInvariant.HandleKeeps | src/memberlist/state.cpp:278-576 | Every message keeps the invariant: we are Alive or, after leaving, Left; timers exist exactly for suspected names with the time of the suspicion; every queued broadcast agrees with the table. |
| ProtocolInvariant.HandleCurrent | src/memberlist/state.cpp:265-276 | No message separates our own record from our counter, not even one that makes the counter wrap. |
| ProtocolInvariant.HandleLocality | src/memberlist/state.cpp:278-576 | A message about one name changes record, timer and queued broadcast of no other name. |
| ProtocolInvariant.AliveSlot | src/memberlist/state.cpp:278-408 | An Alive message leaves record, timer and queued broadcast of its subject consistent. |
| ProtocolInvariant.SuspectSlot | src/memberlist/state.cpp:410-511 | So does a Suspect message. |
| ProtocolInvariant.DeadSlot | src/memberlist/state.cpp:513-576 | So does a Dead message. |
| ProtocolLaws.AliveThenSilent | src/memberlist/memberlist.cpp:204-235 | In every run from setAlive the local member is Alive in its own table until Leave, whatever arrives; afterwards it is Left for good and nothing queued announces it as alive. |
| ProtocolLaws.RecordFollowsCounter | src/memberlist/memberlist.cpp:11-21 | Throughout a run our own record has the incarnation of our counter until we leave, if and only if UpdateNode never meets a counter of UINT32_MAX before. |
| ProtocolLaws.GossipAgreesWithTable | src/memberlist/state.cpp:395-464 | In every reachable state each queued broadcast is about the name it is filed under and says the state the table says, with the same incarnation unless it is a suspicion whose timer has counted a confirmation. |
| ProtocolLaws.TimersMatchSuspicions | src/memberlist/state.cpp:462-510 | In every reachable state a timer exists for a name exactly if the name is Suspect, carries the record's StateChange, and is never the local one. |
| ProtocolLaws.TimerSetupInRange | src/memberlist/state.cpp:472-481 | When a timer is set up, n - 2 does not underflow and k is at most n - 2; for a multiplier of at least 2, k is 0 or the multiplier minus 2. |
| ProtocolLaws.StaleCallbackNeverFires | src/memberlist/state.cpp:487-500 | A callback whose suspicion no longer stands fails its test after every further run, if no later step carries its timestamp. |
| ProtocolLaws.LateDeadIsIgnored | src/memberlist/state.cpp:487-508 | A callback that passed its test changes nothing in its second step if an Alive about its subject was accepted at any time in between, whatever else happened before and after that. |
| ProtocolLaws.IncarnationNeverFalls | src/memberlist/state.cpp:346-407 | Without address reclaim, the incarnation stored for a remote member never falls over any run. |
| ProtocolLaws.GossipPaysPotential | src/memberlist/state.cpp:278-576 | Without address reclaim, a message never lowers the rank (incarnation, then Alive, Suspect, Dead or Left) of its remote subject, and a broadcast is submitted only if the rank rises or a new confirmer is counted. |
| ProtocolLaws.GossipPaysIff | src/memberlist/state.cpp:322-360 | In general, the rank falls and the broadcast is not paid for if and only if the message takes over an address without a higher incarnation. |
| ProtocolLaws.IncarnationFallsIff | src/memberlist/state.cpp:322-360 | A message lowers the stored incarnation of a remote member if and only if it takes over an address with a lower one. |
| ProtocolLaws.LeftChangesIff | src/memberlist/state.cpp:322-360 | A message changes the record of a departed remote member if and only if it is an Alive about it from another address or with a higher incarnation. |
| ProtocolLaws.GossipQuiesces | src/memberlist/state.cpp:278-576 | With incarnations of a remote member bounded by M, a run of any length submits fewer than 258 * (3M + 3) broadcasts about it. |
| Quiescence.AllGossipQuiesces | src/memberlist/state.cpp:278-576 | With all incarnations bounded by an M below UINT32_MAX - 1, a run of any length over n remote members submits at most n * 258 * (3M + 3) + M + 1 broadcasts in total, refutations, updates and the departure included. |
| Quiescence.GossipUnbounded | src/memberlist/memberlist.cpp:298-313 | With incarnations up to UINT32_MAX - 1, runs of accusations and updates submit any number of broadcasts. |
| ClusterQuiescence.ClusterQuiesces | src/memberlist/state.cpp:278-576 | If no counter of the cluster ends up above an M below UINT32_MAX - 1, every member has submitted at most n * 258 * (3M + 3) + M + 1 broadcasts, n being the number of the others, however long the run and whatever was lost, repeated or reordered. |
| Quiescence.OwnMessagePays | src/memberlist/state.cpp:265-276 | A broadcast that a message about ourselves causes is paid for by a higher counter, if and only if the message does not make the counter wrap. |
| ProtocolLaws.RedeliveryIsNoOp | src/memberlist/state.cpp:278-576 | Receiving a message again changes nothing, if and only if no wait for a dead member's address ended in between and the message is not one about ourselves at UINT32_MAX that we answer. |
| ProtocolLaws.SuspicionsDoNotCommute | src/memberlist/state.cpp:433-464 | Of two suspicions of an alive member with different incarnations, the first to arrive decides the stored one. |
| ProtocolLaws.SuspicionsCommute | src/memberlist/state.cpp:424-464 | Two suspicions of a remote member, at any times, leave the same state in either order, and the same incarnation if and only if the member is not alive, one of them is outdated, or their incarnations are equal. |
| ProtocolLaws.LateClaimsHappen | src/memberlist/state.cpp:322-344 | After a member was heard of and declared dead, a claim on its name from another address succeeds if and only if the configured time, if any, has passed since the death; so the same claim can fail first and succeed later. |
| ProtocolLaws.RefutationBeatsAccusation | src/memberlist/state.cpp:265-276 | The refuting incarnation is above the accusation if and only if the accusation is below UINT32_MAX. |
| ProtocolLaws.UpdateIsRefuted | src/memberlist/memberlist.cpp:298-313 | UpdateNode raises the counter, the own record and the queued Alive by two, modulo 2^32, and touches nothing else; once the member left, or with a counter of UINT32_MAX, it raises the counter by one and announces nothing. |
| ProtocolLaws.LeaveKeeps | src/memberlist/memberlist.cpp:204-235 | Leave keeps the invariant and sets the leave flag. |
| ProtocolLaws.StartKeeps | src/memberlist/memberlist.cpp:23-31 | After setAlive the invariant holds, the counter is 1 and the table knows only the local member. |
| ProtocolLaws.RunKeeps | src/memberlist/state.cpp:278-576 | Every run keeps the invariant, and the leave flag is set exactly by Leave. |
| ProtocolLaws.OwnSnapshotHarmless | src/memberlist/state.cpp:761-802 | Merging entries of the member's own snapshot, in any order and number, changes no record. |
| ProtocolLaws.SnapshotIntroduces | src/memberlist/state.cpp:775-802 | Of the unknown names, a merge of distinct entries introduces exactly those listed Alive; the new record equals the entry exactly if its incarnation is positive. |
| ProtocolLaws.RemoteDeadOnlySuspected | src/memberlist/state.cpp:793-798 | Merging a remote Dead entry never turns a record into Dead and adds no name. |
| ProtocolLaws.MergeLocality | src/memberlist/state.cpp:775-802 | A merge leaves every name alone that it does not list. |
| BroadcastOrder.PicksAreGreedy | src/misc/broadcastQueue.cpp:97-135 | Each pick precedes, by lower tier, then length, then newness, every item not yet taken that would still have fitted. |
| BroadcastOrder.PicksFillTheBudget | src/misc/broadcastQueue.cpp:97-135 | The bytes taken stay within the budget and no item left behind fits the rest. |
| BroadcastOrder.PacketWithinLimit | src/misc/broadcastQueue.cpp:102-107 | A packet that carries anything respects the limit with its one overhead if and only if the overhead is at most the limit; otherwise the unsigned subtraction wraps and the whole queue goes out if it fits the wrapped budget. |
| BroadcastOrder.PerMessageOverhead | src/misc/broadcastQueue.cpp:77-102 | Message bytes plus one overhead per message respect the limit for every queue if and only if there is no overhead or less than two bytes besides it. |
| BroadcastOrder.PerMessageOverheadEncoded | src/misc/broadcastQueue.cpp:77-102 | The same for queues of encoded messages, with seven bytes, the two shortest messages about different subjects. |
| BroadcastOrder.PerMessageFails | src/misc/broadcastQueue.cpp:77-102 | A queue of two messages that is sent whole within eleven bytes although it needs fifteen. |
| BroadcastOrder.PruneKeepsLatest | src/misc/broadcastQueue.cpp:184-200 | For every number to keep between none and all, what stays is newer than what goes, whatever the ids are, if and only if all items have the same tier and length. |
| BroadcastOrder.PruneKeepsTheOlder | src/misc/broadcastQueue.cpp:184-200 | Of a longer old message and a shorter new one of the same tier, the old one stays. |
| Encoding.SizeIsExact | include/type/msgtype.proto:88-158 | The length the queue reckons with is the number of bytes written, default values omitted. |
| Encoding.DecodeEncode | include/type/msgtype.proto:88-158 | Every message can be read back from its bytes. |
| Wire.MessageOfSize | include/type/msgtype.proto:146-158 | Every length of at least five bytes is the encoded length of some message with a named subject. |
| BroadcastOrder.PacketSubjectsDistinct | src/misc/broadcastQueue.cpp:79-146 | No subject appears twice in a packet. |
| BroadcastOrder.PicksPartition | src/misc/broadcastQueue.cpp:79-146 | Every queued item is taken or left, never both. |
| BroadcastOrder.SendsIffFits | src/misc/broadcastQueue.cpp:92-119 | A packet is non-empty if and only if some queued item fits it. |
| BroadcastOrder.BoundsFindFirstFit | src/misc/broadcastQueue.cpp:109-117 | The two set lookups decide whether the tier holds a fitting item, and the lower one is then the first fitting item of the whole queue. |
| BroadcastOrder.PacketKeeps | src/misc/broadcastQueue.cpp:121-141 | Deferred reinsertion leaves a well-formed queue of exactly the untaken items and the bumped ones that have transmissions left. |
| BroadcastOrder.InsertRefuses | src/misc/broadcastQueue.cpp:9-22 | Inserting changes nothing if and only if an item with the same three keys is present. |
| BroadcastQueues.Fill | src/misc/broadcastQueue.cpp:94-135 | The nested loops over tiers terminate and compute exactly the single first-fit pass: packet, rest, items to reinsert, notices. |
| BroadcastQueues.FillTier | src/misc/broadcastQueue.cpp:100-134 | The inner loop terminates with every fitting item of its tier taken, or the packet full. |
| BroadcastQueues.Reinsert | src/misc/broadcastQueue.cpp:136-140 | Putting the items back keeps both indexes in agreement. |
| BroadcastQueues.KeepLeast | src/misc/broadcastQueue.cpp:186-200 | The loop keeps the first min(size, maxRetain) items of the order in both indexes and notifies for the rest from the far end. |
| BroadcastQueues.Erase | src/misc/broadcastQueue.cpp:150-167 | The erasing loop removes every item of that name and notifies for each. |
| BroadcastQueues.NotifiedWhenSent | src/misc/broadcastQueue.cpp:121-130 | A packet notifies the waiter of a picked broadcast once if the broadcast has transmissions left, and twice if this was its last. |
| BroadcastQueues.NotifiedWhenDropped | src/misc/broadcastQueue.cpp:193-199 | Pruning notifies the waiter of a dropped broadcast once. |
| QueueHistory.WaiterNotified | src/mynet/broadcast.cpp:13-19 | Over every history a waiter is notified once for each packet that carried its broadcast and once more when the broadcast has left the queue; so it is notified only at the end, and once, exactly as long as no packet carried it. |
| BroadcastQueues.SubmitKeepsIff | src/misc/broadcastQueue.cpp:51-75 | Submitting keeps both indexes in agreement if and only if no item of another subject holds the new id. |
| BroadcastQueues.SubmitUsesOne | src/misc/broadcastQueue.cpp:55-62 | Of the ids to come that are not in use, a submission uses up one, across the wrap of the generator. |
| BroadcastQueues.TookNotifiesWaiters | src/misc/broadcastQueue.cpp:150-167 | A submission writes only to descriptors that were waiting for a queued broadcast. |
| BroadcastQueues.BroadcastQueue.GetBroadcasts | src/misc/broadcastQueue.cpp:79-146 | Packet, new queue, notices and result are those of the first-fit pass under the retransmit limit; both indexes still agree. |
| BroadcastQueues.BroadcastQueue.QueueBroadcast | src/misc/broadcastQueue.cpp:51-75 | The new item replaces whatever was queued about its subject, whose waiter is notified, with the next id, which wraps to 1; the indexes stay in agreement if and only if that id is not in use, which is certain while the generator has not wrapped. |
| BroadcastQueues.BroadcastQueue.DeleteItem | src/misc/broadcastQueue.cpp:150-174 | The name vanishes from both indexes and everything else stays. |
| BroadcastQueues.BroadcastQueue.AddItem | src/misc/broadcastQueue.cpp:178-182 | The item appears in both indexes, at its place in the order; they stay in agreement if and only if it shares neither name nor id with another item. |
| BroadcastQueues.BroadcastQueue.Prune | src/misc/broadcastQueue.cpp:186-200 | Exactly the min(size, maxRetain) least items stay, in both indexes. |
| BroadcastQueues.BroadcastQueue.Clear | src/misc/broadcastQueue.cpp:32-42 | Both indexes and the id generator are reset, and every waiter is notified in order. |
| QueueHistory.RetransmitBound | src/misc/broadcastQueue.cpp:121-141 | Over every interleaving of submissions, packets and pruning, with any number of the latter two, a broadcast goes out at most max(1, L) times, L the largest limit in force, and transmits of a queued item is the number of packets it was in. |
| QueueHistory.RetransmitBoundByNodes | src/misc/util.cpp:59-64 | With the limit computed from node counts up to n, that bound is max(1, retransmitLimit(n)). |
| QueueHistory.SentExactly | src/misc/broadcastQueue.cpp:121-141 | With a fixed node count of e digits, a broadcast that is neither replaced nor pruned goes out exactly max(1, multiplier * e) times before it leaves the queue. |
| QueueHistory.PacketPaysDue | src/misc/broadcastQueue.cpp:121-141 | Conservation: the transmissions still due fall by exactly the number of messages sent. |
| QueueHistory.QueueDrains | src/misc/broadcastQueue.cpp:94-141 | If every message fits an empty packet, as many packets as transmissions are due empty the queue. |
| QueueHistory.QueueDrainsInTime | src/misc/broadcastQueue.cpp:94-141 | size * max(1, L) packets always do. |
| QueueHistory.QueueDrainsIff | src/misc/broadcastQueue.cpp:94-141 | With packets of one size, that many empty the queue if and only if every message fits one. |
| Scaling.CeilLog10Exact | src/misc/util.cpp:59-64 | The node scale is the least exponent whose power of ten reaches n + 1. |
| Scaling.RetransmitLimitExact | src/misc/util.cpp:59-64 | For a node count of e digits the limit is the multiplier times e. |
| Scaling.RetransmitLimitMonotone | src/misc/util.cpp:59-64 | The limit never shrinks when nodes are added, and is at least the multiplier once a node is known. |
| Suspicions.ConfirmationsCounted | src/misc/suspicion.cpp:27-39 | After any calls of Confirm, n is the number of distinct confirmers other than the originator, cut off at k + 1, and up to k exactly those are recorded. |
| Suspicions.TimeoutWithinBounds | src/misc/suspicion.cpp:12-21 | The timeout is at most max; it is at least a positive min if and only if n <= k or the bounds coincide. |
| Suspicions.TimeoutMonotone | src/misc/suspicion.cpp:12-21 | More confirmations never lengthen the timeout. |
| Suspicions.TimeoutEnds | src/misc/suspicion.cpp:12-21 | No confirmation means max, k confirmations mean min. |
| Suspicions.TimeoutInterpolates | src/misc/suspicion.cpp:12-21 | Between its ends the timeout falls in proportion to the logarithm of one more than the confirmations, up to the dropped fraction. |
| Suspicions.TruncatesTowardsZero | src/misc/suspicion.cpp:14-14 | Converting the timeout to an integer drops the fraction, whatever the sign. |
| Suspicions.SuspicionTimeoutExact | src/misc/util.cpp:94-99 | The timeout is the integer part of multiplier times interval times the logarithm of one more than the node count, that factor being at least one. |
| Suspicions.SuspicionTimeoutMonotone | src/misc/util.cpp:94-99 | The timeout is at least multiplier times interval and never shorter in a larger cluster. |
| Suspicions.Suspicion.constructor | src/misc/suspicion.cpp:4-10 | A new timer counts only the originator and ends after min or max, depending on k. |
| Suspicions.Suspicion.Remaining | src/misc/suspicion.cpp:12-21 | What is left of the timeout for the current count, from the start of the suspicion. |
| Suspicions.Suspicion.Confirm | src/misc/suspicion.cpp:27-51 | Counts a new confirmer; a running timer fires if and only if the shortened timeout is over, and otherwise keeps running and ends no later than before. |
| ProbeSchedule.ProbeCompletenessBySize | src/memberlist/state.cpp:15-71 | With N members, ourselves among them, any 2N - 1 consecutive calls probe every eligible member, whatever the shuffles. |
| ProbeSchedule.ProbeCompleteness | src/memberlist/state.cpp:15-71 | Twice as many calls as there are eligible members already do. |
| ProbeSchedule.OnlyEligibleProbed | src/memberlist/state.cpp:45-67 | Ourselves, dead and left members are never probed. |
| ProbeSchedule.BoundIsTight | src/memberlist/state.cpp:15-71 | With any eligible members x and ys and at least as many dead ones as ys, twice the number of eligible members less one calls can all miss x. |
| ProbeSchedule.TightForEveryNumber | src/memberlist/state.cpp:15-71 | So the bound on calls is tight for every number of eligible members. |
| ProbeSchedule.CallProbesIff | src/memberlist/state.cpp:30-67 | A call probes somebody if and only if an eligible member lies ahead, or the reshuffled order has one among as many front places as the pass has behind it, less one. |
| Memberlists.Memberlist.AliveNode | src/memberlist/state.cpp:278-408 | The object changes as the function AliveNode says; nodes, nodeMap and numNodes stay in agreement; the queue stays or takes one broadcast about the subject, for which the given descriptor waits unless it is a refutation. |
| Memberlists.Memberlist.SuspectNode | src/memberlist/state.cpp:410-511 | The object changes as the function SuspectNode says; a new timer starts with the timeouts of OpenTimer; a callback becomes due if and only if the message confirms a running suspicion whose shortened timeout is over, and is that suspicion's; nobody waits for the broadcast; the probe order stays. |
| Memberlists.Memberlist.OpenTimer | src/memberlist/state.cpp:484-510 | A new timer runs from now for its maximum, or for its minimum if it expects no confirmation; the minimum is the suspicion timeout of the node count, the maximum the configured multiple of it. |
| Memberlists.Memberlist.DeadNode | src/memberlist/state.cpp:513-576 | The object changes as the function DeadNode says; only for our own departure does the leave descriptor wait for the broadcast. |
| Memberlists.Memberlist.Refute | src/memberlist/state.cpp:265-276 | The object changes as the function Refute says, and nobody waits for the broadcast. |
| Memberlists.Memberlist.Insert | src/memberlist/state.cpp:302-319 | The new state takes the drawn place of the probe order, the one that stood there moves to the end, the others stay, and nodes remains a permutation of the values of nodeMap. |
| Memberlists.Memberlist.TimerExpired | src/memberlist/state.cpp:487-500 | Yields a Dead message for the stored incarnation if and only if this very suspicion still stands. |
| Memberlists.Memberlist.MergeRemoteState | src/memberlist/state.cpp:775-802 | The loop over the entries is Merge, and each callback an entry makes due is that of the suspicion standing at its turn. |
| Memberlists.Memberlist.LocalState | src/memberlist/state.cpp:761-773 | The entries are the snapshot of the table, each name once. |
| Memberlists.Memberlist.SetAlive | src/memberlist/memberlist.cpp:23-31 | A new object reaches the start state, and nobody waits for its broadcast. |
| Memberlists.Memberlist.Leave | src/memberlist/memberlist.cpp:204-235 | The object changes as the function Leave says, with the leave descriptor waiting for the broadcast; a second call changes nothing. |
| Memberlists.Memberlist.UpdateNode | src/memberlist/memberlist.cpp:298-313 | The object changes as the function Update says; the given descriptor is not written to, and no queued broadcast waits for it. |
| Memberlists.Memberlist.NextTarget | src/memberlist/state.cpp:15-71 | The goto loop ends after at most N checks, exactly N if nobody is probed, with the order, index and target of the schedule's Call. |
| Memberlists.Memberlist.Probe | src/memberlist/state.cpp:15-71 | Probing reorders nodes and moves probeIndex as Call says and changes nothing else; whoever is probed is somebody else, held alive or suspect. |
| Memberlists.EligibleIff | src/memberlist/state.cpp:45-60 | Exactly the others held alive or suspect may be probed. |
| Memberlists.Memberlist.Peers | src/misc/util.cpp:66-92 | At most k different members, none of them ourselves or left, and dead ones only if drawn soon enough after their death; fewer than k only if 3N draws hit no other such member. |
| Memberlists.DrawnExplicitly | src/memberlist/state.cpp:631-652 | Who may be drawn: not ourselves, not a member that left, and a dead one only for the configured time after its death. |
| Memberlists.Memberlist.FillPacket | src/memberlist/broadcast.cpp:24-33 | The packet, the new queue, the notices and the result are those of one packet of the given size, of which four bytes stay free for the overhead. |
| Memberlists.Memberlist.Gossip | src/memberlist/state.cpp:622-673 | One packet per peer until the queue has nothing to say, each filled from what the previous one left; nothing but the queue changes. |
| Memberlists.RoundDrains | src/memberlist/state.cpp:656-672 | The packets of a round are those of draining the queue packet by packet, and stop short of the peers exactly when the queue has nothing to say. |

## Left out

- Memberlists.Memberlist.MergeRemoteState: when a merged entry makes a callback due is the contract of `SuspectNode`, not repeated for the loop.
- Memberlists.Memberlist.AliveNode: like all handlers of the object, does not cover a state in which a queued broadcast holds the very id that a wrapped generator hands out next; there the queue loses its consistency, as `QueueBroadcast` says.
- QueueHistory.RetransmitBound: histories contain no `clear`, which restarts ids at 1, and at most UINT32_MAX submissions.
- ProtocolLaws.GossipQuiesces: excludes address reclaim, which lowers ranks as `GossipPaysIff` says.
- ProbeSchedule.ProbeCompleteness: membership does not change between the calls.
- Suspicions.Timeout: real arithmetic, so rounding of `log` and of the products is not captured.
- Address reclaim in the cluster: follows from the assumption of one fixed address per name; the single-member model has it.
- Sockets, pipes, select and the listen loops, including the blocking waits of `Leave` and `UpdateNode`.
- The body of `probeNode` and indirect pings: a failed probe is a step that may happen at any time.
- Timer threads, cancellation, and the direct call of the callback from `Confirm` while the lock is held.
- Handoff stacks for received messages, configuration defaults, logging, shutdown, the demo programs, and of the generated protobuf code everything but the encoding of a broadcast.
