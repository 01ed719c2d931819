# Locus: a verified model

Locus is a server through which people share their positions with followers.  A client connects,
both sides agree on keys, and from then on the client sets its name, chooses followers, sends
positions and is sent the names and positions of those it follows.  This project models the parts of
it that depend on each other, and proves what they promise together.

## The parts

**Messages between threads** (`BlockingQueue.dfy`, `WakeUps.dfy`). A bounded FIFO, an unbounded
priority bag and a self-pipe whose bytes announce the elements. The class is proved against the
transitions of `QueueSpec`; `WakeUps` runs any number of producers and consumers over the same
transitions, with waits, time-outs, notifications and spurious wake-ups as steps of their own.

**Bytes** (`Buffer.dfy`, `SocketReads.dfy`, `Framing.dfy`, `ClientBuffer.dfy`, `Packet.dfy`,
`CryptoModule.dfy`, `EncryptedMessenger.dfy`, `EndToEnd.dfy`, `Wires.dfy`). The chunk list refines a
flat byte string; two framing machines on flat strings are refined by the class over chunk lists;
ciphers cut texts into blocks; a packet's whole way is composed of these; and `Wires` ties what the
sessions send to their wires. The socket is an adversary that chooses how many bytes each call
moves, or EAGAIN, end of file, or an error.

**Clients and followers** (`Registry.dfy`, `RegistryLaws.dfy`, `ClientDataManager.dfy`,
`Sessions.dfy`, `Commands.dfy`, `Watermarks.dfy`, `Watchers.dfy`, `NamesFirst.dfy`, `Outgoing.dfy`,
`LostName.dfy`). The operations on the maps are functions on a value, refined by the class that
updates its fields; the laws and the results over whole runs are about the functions. `Sessions`
puts sessions, queues and `Update` messages around them; `Commands` says what each packet of a
client comes to; `Watermarks` and `Watchers` say what is handed out, `Outgoing` what is really sent.

**The handshake** (`ProtocolClient.dfy`, `HandshakeSystem.dfy`, `Conversation.dfy`, `Ciphers.dfy`).
First the server alone against a peer that sends anything; then the server with the Java client's
main, reader and writer threads, their shared flags and the frames in flight, each access to a
shared flag or queue being a step, and the locking or opening of a frame, with the cipher state it
reads, another. `Conversation` shows that no packet between the two is lost, reordered or misread,
`Ciphers` that locks which agree are ciphers which decrypt.

## Where the code and its intent differ

The code is modelled as written.  For each departure one lemma shows it at a concrete input or in a
reachable state, and another gives the exact condition.

| departure | shown by | exact condition |
|---|---|---|
| `ClientBuffer::recv(n)` cuts its vector at each retry (ClientBuffer.cpp:36) | `SplitReadCorrupts`, `FragmentedPayloadIsDamaged` | `ReturnedIsReceivedIff`, `PayloadReadKeepsLocationIff` |
| one byte of a header counts as the header (ClientBuffer.cpp:70-77) | `HalfHeaderIsTakenAsWhole` | `HeaderReadKeepsLocationIff`, `HeaderReadKeepsLocationWhen`; over runs `InStepIffOrderly` |
| an empty frame is never completed, a long one loses its length (ClientBuffer.cpp:81-83, 132) | `EmptyFrameArrives`, `EmptyFrameIsStuck` | `FrameSurvivesIff` |
| `recvData` takes a half-received frame (SimpleClient.cpp:52-62) | `TakingEarlyIsPossible` | `TakeKeepsStepIff` |
| `sendData` forces `Full` while a frame is half sent (SimpleClient.cpp:46-47) | `SecondFrameIsSwallowed`, `SecondUpdateMeetsHalfSentFrame` | `AcceptsEverythingIff` |
| `testKey` falls through (ProtocolClient.cpp:95-98): a command for nobody | `CommandForNobody` | `FallThroughActsForNobodyIff` |
| the same: a session erased at once | `HandshakeCanComplete` with `EveryHandshakeEndsInErasure` | `FallThroughErasesIff` |
| a name counts as known once it is handed out, before it is sent (ClientDataManager.cpp:185-187, ProtocolClient.cpp:80-85) | `NameIsLost` | `NamesReachTheirClientIff`, `LocatedIsNamedIff`, `LocatedAreNamedExactly` |
| the position loop never steps its iterator back (ClientDataManager.cpp:129-140) | `OlderPositionIsNotSent` | `EmittedIsNewestIff` |
| following again starts a second watcher (ClientDataManager.cpp:44-45) | `FollowingAgainRepeats` | `MarkedAfterStepIff` |
| registration keeps a stored queue (ClientDataManager.cpp:26) | `SecondSessionCutsOffTheFirst` | `SecondSessionIsDeafIff`, `DestructionCutsOffIff` |
| registration posts no `Update` | `ReconnectionLosesAnUpdate` | `ReconnectionIsCoveredIff` |
| ids are shorts | `IdsRunOut` | `QueueOutlivesSessionIff`, `ConsistentIffFits` |
| the empty name has an index entry that is never erased (ClientDataManager.cpp:162-165) | `EmptyNameIndexGoesStale` | `EmptyNameStaysTrueIff` |
| a full pipe makes a push throw before `notify_one` | `OverflowLosesWakeUp` | `NoLostWakeUpIff`, `AnnouncedIffWithinPipe` |
| the client decrypts one block only (EncryptedMessenger.java:51-58); the handshake sends it 17 bytes, which fit | `LongTextIsNotRead` | `ClientReadsServerIff` |
| a key of at most 11 octets is accepted, and `encryptRSA` never ends with it (CryptoModule.cpp:18) | `NeverOver` | `EncryptRsaEndsIff` |
| the client sets `sending` after `put` (Client.java:63-64, 78-79) | `MainCanBlock` | `FlagBlocksIff` |
| the client sets `receiveNext` after `put` (Client.java:163-164) | `ReaderCanGoDeaf` | `DoneDeafensIff` |

The members of `ClientDataManager` build an exception for an unknown id without throwing it, and go on
with an end iterator.  That the id exists is therefore demanded of the caller; `EveryRun` shows that
registered sessions always meet it.

## Model

| member | source | states |
|---|---|---|
| `QueueSpec.Conservation` | server/src/message/BlockingQueue.h:66-103 | over every history: elements put in by `push` = elements that left the FIFO, in order, followed by those still in it; the bag balances; the FIFO never exceeds its bound |
| `QueueSpec.FaultFreeIffWithinPipe` | server/src/message/BlockingQueue.h:66-103 | from a queue whose pipe bytes equal its elements, no operation of a history throws if and only if every push finds fewer elements than the pipe can hold; then the equality still holds at the end |
| `QueueSpec.PushKeepsBalance` | server/src/message/BlockingQueue.h:66-89 | a push of either kind succeeds, and keeps one pipe byte for each element, exactly when the pipe has room |
| `QueueSpec.PopKeepsBalance` | server/src/message/BlockingQueue.h:91-103 | with one byte for each element, a pop always finds its byte and keeps the equality |
| `QueueSpec.StepConserves` | server/src/message/BlockingQueue.h:66-103 | one operation adds at the back of the FIFO or to the bag, or removes the front of the FIFO only while the bag is empty |
| `BlockingQueues.BlockingQueue.constructor` | server/src/message/BlockingQueue.h:52-56 | an empty queue with an empty pipe |
| `BlockingQueues.BlockingQueue.PushByteToPipe` | server/src/buffer/PipeBuffer.cpp:15-22 | one more readable byte, or a failure that changes nothing when the pipe is full |
| `BlockingQueues.BlockingQueue.PopByteFromPipe` | server/src/buffer/PipeBuffer.cpp:24-31 | one readable byte fewer, or a failure that changes nothing when the pipe is empty |
| `BlockingQueues.BlockingQueue.Push` | server/src/message/BlockingQueue.h:66-75 | the critical section after the wait: the element is at the back, announced by a byte unless the pipe is full, and the bound holds |
| `BlockingQueues.BlockingQueue.PriorityPush` | server/src/message/BlockingQueue.h:77-89 | the element is one more in the bag, duplicates included, announced likewise |
| `BlockingQueues.BlockingQueue.PopWithoutBlocking` | server/src/message/BlockingQueue.h:91-103 | what comes out is some element of the bag, or the oldest of the FIFO when the bag is empty, and exactly it is gone |
| `BlockingQueues.BlockingQueue.PopFor` | server/src/message/BlockingQueue.h:117-133 | nothing exactly when both containers are empty at the deadline, and then nothing changes; otherwise as a pop |
| `WakeUps.StepKeepsWakeUpsIff` | server/src/message/BlockingQueue.h:66-133 | whatever the pipe holds, each lock-protected step, notification, time-out and spurious wake-up of any number of threads keeps the wake-up accounts exactly when it is not a push that finds the pipe full (or a pop that finds it empty) with a sleeper that nobody will wake |
| `WakeUps.NoLostWakeUpIff` | server/src/message/BlockingQueue.h:66-133 | a run keeps in all its states: a consumer asleep means elements <= woken consumers + pending notifications, a producer asleep means free slots <= woken producers + pending notifications; exactly when none of its events is of that kind |
| `WakeUps.StepWithinPipe` | server/src/message/BlockingQueue.h:66-103 | a step keeps one pipe byte for each element exactly when it stays within the pipe, and then loses no wake-up |
| `WakeUps.AnnouncedIffWithinPipe` | server/src/message/BlockingQueue.h:66-133 | a run keeps pipe bytes = elements in all its states exactly when it stays within the pipe; and then no wake-up is lost |
| `WakeUps.OverflowLosesWakeUp` | server/src/message/BlockingQueue.h:82-87 | for every bound and every pipe capacity, a run from idle threads in which a full pipe makes `priorityPush` throw between insertion and `notify_one`, and which ends at rest with a consumer asleep beside an element |
| `WakeUps.QuiescentSleepersAreRight` | server/src/message/BlockingQueue.h:66-133 | at rest a consumer sleeps only on an empty queue, a producer only on a full one, and never both (for a positive bound), if no wake-up was lost or the run stayed within the pipe |
| `WakeUps.RunLinearises` | server/src/message/BlockingQueue.h:66-133 | every interleaving is a sequential history of the queue, so conservation and order carry over |
| `WakeUps.EachCallActsOnce` | server/src/message/BlockingQueue.h:66-133 | over every run each call of each thread ends by exactly one operation, or, for `pop_for` alone, by a deadline that passes on an empty queue |
| `WakeUps.StepCounts` | server/src/message/BlockingQueue.h:66-133 | what each step does to the number of threads in each role |
| `RegistryLaws.RegisterKeepsConsistency` | server/src/database/ClientDataManager.cpp:9-28 | registration keeps the four maps consistent while ids fit a short, and the answer is the id of the key |
| `RegistryLaws.RegistrationIdentity` | server/src/database/ClientDataManager.cpp:9-28 | a known key gets its old id and no stored data changes; a new key gets a fresh id that is positive exactly while ids fit, with the key and nothing else on record; a queue already stored is not replaced |
| `RegistryLaws.UnregisterKeepsConsistency` | server/src/database/ClientDataManager.cpp:30-32 | removing a stored queue keeps the maps consistent |
| `RegistryLaws.AddFollowerAddsTheEdge` | server/src/database/ClientDataManager.cpp:34-51 | following adds exactly one edge to both sides of the graph, with multiplicity, self-follow included, and otherwise only posts notices |
| `RegistryLaws.AddFollowerKeepsConsistency` | server/src/database/ClientDataManager.cpp:34-51 | both sides of the graph stay equal and every id mentioned exists |
| `RegistryLaws.StopFollowingCutsTheEdge` | server/src/database/ClientDataManager.cpp:74-86 | all edges between the two are gone on both sides and no other edge changes |
| `RegistryLaws.StopFollowingKeepsConsistency` | server/src/database/ClientDataManager.cpp:74-86 | both sides of the graph stay equal and every id mentioned exists |
| `RegistryLaws.RemoveFollowerIsStopFollowing` | server/src/database/ClientDataManager.cpp:53-86 | a dropping follower f and f ceasing to follow a give the same state |
| `RegistryLaws.NotifyAllPosts` | server/src/database/ClientDataManager.cpp:88-100 | notifying followers loses no notice, posts to stored queues only, and changes nothing else |
| `RegistryLaws.NotifyAllReaches` | server/src/database/ClientDataManager.cpp:88-100 | every follower notified who has a queue finds a notice in it |
| `RegistryLaws.NotifyAllCounts` | server/src/database/ClientDataManager.cpp:88-100 | the queue stored for a client gets exactly one notice for each entry of the list that names it |
| `RegistryLaws.SetNameKeepsConsistency` | server/src/database/ClientDataManager.cpp:154-172 | the name index stays the inverse of the current non-empty names |
| `RegistryLaws.AddPositionKeepsConsistency` | server/src/database/ClientDataManager.cpp:102-111 | a new position keeps the maps consistent |
| `RegistryLaws.GetNewNamesKeepsConsistency` | server/src/database/ClientDataManager.cpp:174-192 | every watched id exists, so `at` never throws, and the maps stay consistent |
| `RegistryLaws.GetNewPositionsKeepsConsistency` | server/src/database/ClientDataManager.cpp:113-147 | every watched id exists, so `at` never throws, and the maps stay consistent |
| `RegistryLaws.NameIndexIsScan` | server/src/database/ClientDataManager.cpp:149-152 | for every non-empty name `getNameId` equals a search through all clients, and at most one client bears the name |
| `RegistryLaws.SetNameAnswer` | server/src/database/ClientDataManager.cpp:154-172 | true exactly when the caller bears the name afterwards, with empty names too; a non-empty name is granted exactly when nobody else bears it; refusal changes nothing; other clients are untouched |
| `RegistryLaws.EmptyNameIndexGoesStale` | server/src/database/ClientDataManager.cpp:161-168 | the empty name is the exception: its index entry survives the renaming of its owner |
| `RegistryLaws.EmptyNameStaysTrueIff` | server/src/database/ClientDataManager.cpp:160-171 | the entry of the empty name never moves, and ceases to be true exactly when its owner takes a new name |
| `RegistryLaws.FetchLeavesNoNews` | server/src/database/ClientDataManager.cpp:113-192 | after one `getNewNames` and one `getNewPositions` nothing is left to deliver |
| `RegistryLaws.FetchDeliversTheNews` | server/src/database/ClientDataManager.cpp:113-192 | the two calls deliver something exactly when a followed name differs from the cached one or a named client has a position newer than the mark; so a repeated fetch is empty |
| `RegistryLaws.FetchAdvances` | server/src/database/ClientDataManager.cpp:141-189 | what a fetch makes of each watcher, self-follow included |
| `RegistryLaws.EmittedIsNewestIff` | server/src/database/ClientDataManager.cpp:129-140 | the loop yields the up to three newest positions past the mark exactly when there is at most one position, the last is not newer than the mark, or the last three are equal |
| `RegistryLaws.OlderPositionIsNotSent` | server/src/database/ClientDataManager.cpp:129-140 | two new positions: the newer one is emitted three times, the older never |
| `ClientDataManagers.ClientDataManager.constructor` | server/src/database/ClientDataManager.h:40-44 | empty maps, first id 1 |
| `ClientDataManagers.ClientDataManager.AddClient` | server/src/database/ClientDataManager.cpp:9-13 | `insert` semantics on both maps, and the 16-bit successor of the id |
| `ClientDataManagers.ClientDataManager.RegisterClient` | server/src/database/ClientDataManager.cpp:15-28 | carries out the registration analysed above, stays consistent, and answers a positive id exactly for a known key or while ids fit |
| `ClientDataManagers.ClientDataManager.Unregister` | server/src/database/ClientDataManager.cpp:30-32 | forgets the queue of one id and nothing else |
| `ClientDataManagers.ClientDataManager.PostUpdate` | server/src/database/ClientDataManager.cpp:47-50 | one more `Update` in the queue of a client that has one |
| `ClientDataManagers.ClientDataManager.AddFollower` | server/src/database/ClientDataManager.cpp:34-51 | both lists are extended and the follower is notified; consistency is kept |
| `ClientDataManagers.ClientDataManager.RemoveFollower` | server/src/database/ClientDataManager.cpp:53-72 | both lists are purged; consistency is kept |
| `ClientDataManagers.ClientDataManager.StopFollowing` | server/src/database/ClientDataManager.cpp:74-86 | both lists are purged; consistency is kept |
| `ClientDataManagers.ClientDataManager.NotifyFollowers` | server/src/database/ClientDataManager.cpp:88-100 | one notice for each follower entry, in order |
| `ClientDataManagers.ClientDataManager.AddPosition` | server/src/database/ClientDataManager.cpp:102-111 | the position is appended and the followers are notified; consistency is kept |
| `ClientDataManagers.ClientDataManager.CopyPositions` | server/src/database/ClientDataManager.cpp:126-141 | the inner loop yields nothing, the last position once, or the last position three times, and the mark it ends with |
| `ClientDataManagers.ClientDataManager.AdvanceWatchers` | server/src/database/ClientDataManager.cpp:122-144 | every watcher is advanced in place and the positions of all come out in order |
| `ClientDataManagers.ClientDataManager.GetNewPositions` | server/src/database/ClientDataManager.cpp:113-147 | only the marks of the caller change; consistency is kept |
| `ClientDataManagers.ClientDataManager.GetNameId` | server/src/database/ClientDataManager.cpp:149-152 | the indexed id or 0; for a non-empty name the first id that a scan of all clients finds |
| `ClientDataManagers.ClientDataManager.SetName` | server/src/database/ClientDataManager.cpp:154-172 | true exactly when the caller bears the name afterwards; consistency is kept |
| `ClientDataManagers.ClientDataManager.RenameWatchers` | server/src/database/ClientDataManager.cpp:182-189 | every cached name is refreshed in place and the changed ones come out in order |
| `ClientDataManagers.ClientDataManager.GetNewNames` | server/src/database/ClientDataManager.cpp:174-192 | only the cached names of the caller change; consistency is kept |
| `Sessions.WatcherIsFollower` | server/src/database/ClientDataManager.cpp:34-51 | whoever holds a watcher for a client stands in that client's follower list, so notifications reach it |
| `Sessions.NotifiedChangeIsCovered` | server/src/database/ClientDataManager.cpp:88-111 | a change to one client of which its followers are notified leaves nobody with news and without a notice who had neither before |
| `Sessions.ActIsCovered` | server/src/client/ProtocolClient.cpp:258-309 | every command of a registered client keeps the maps consistent and covers the news it makes |
| `Sessions.FollowingAfterAct` | server/src/client/ProtocolClient.cpp:258-309 | what a command does to anybody's watchers: nothing, one more for the caller, or those for one client removed |
| `Commands.AnswerIsTrue` | server/src/client/ProtocolClient.cpp:258-266 | ACK_OK goes out exactly when the client bears the name afterwards, ACK_ERR exactly when it does not |
| `Commands.AddFollowerFollows` | server/src/client/ProtocolClient.cpp:268-274 | ADD_FOLLOWER with somebody's name: that client holds one more watcher for the sender, and no other pair changes |
| `Commands.RemoveFollowedUnfollows` | server/src/client/ProtocolClient.cpp:284-290 | REMOVE_FOLLOWED with somebody's name: the sender holds no watcher for that client and is not in its list, and no other pair changes |
| `Commands.RemoveFollowerDrops` | server/src/client/ProtocolClient.cpp:276-282 | REMOVE_FOLLOWER with somebody's name: that client holds no watcher for the sender and is not in its list, and no other pair changes |
| `Commands.OthersChangeNothing` | server/src/client/ProtocolClient.cpp:258-309 | a command that names nobody, a location of the wrong size, and any other packet leave the registry alone |
| `Commands.UpdateTakesOneNotice` | server/src/client/ProtocolClient.cpp:311-334 | an `Update` that is handled is gone from the queue of its session and from no other, and changes nothing but what its client has been told |
| `Commands.LocationIsStored` | server/src/database/ClientData.cpp:14-16 | MY_LOCATION puts one position, with the latitude, longitude and time that were sent, behind those of the sender and changes no other data; whatever a watcher emits of it is that position |
| `Commands.LocationReachesFollowers` | server/src/database/ClientDataManager.cpp:102-147 | the next fetch of a follower whose mark is older hands out that position of the sender, and no other |
| `Commands.FetchedExactly` | server/src/database/ClientDataManager.cpp:113-147 | a fetch hands out a position exactly when some watcher tells it: the last of a named client, past the mark |
| `Sessions.StepKeepsInv` | server/src/client/ProtocolClient.cpp:23-28 | every open, registration, destruction, command and update keeps: consistent maps, queues of live sessions only, no missed update |
| `Sessions.EveryRun` | server/src/client/ProtocolClient.cpp:216-334 | over every run from boot while ids fit a short, several sessions for one key included: the maps are consistent, every id that a command is passed exists, stored queues belong to live sessions of their client, and a client that had no news when its queue was stored, or has fetched since, finds an `Update` whenever it has news |
| `Sessions.UnfitIsInconsistent` | server/src/database/ClientDataManager.cpp:9-13 | a registration that needs a new id when ids no longer fit breaks the maps |
| `Sessions.ConsistentIffFits` | server/src/database/ClientDataManager.cpp:9-28 | over any run from boot, the maps are consistent in all states exactly while ids fit |
| `Sessions.ReconnectionIsCoveredIff` | server/src/database/ClientDataManager.cpp:15-28 | a client whose queue is stored afresh will be told what it missed exactly when it missed nothing: registration posts no `Update` |
| `Sessions.ReconnectionLosesAnUpdate` | server/src/database/ClientDataManager.cpp:15-28 | a concrete run: the notice due to a dead session is lost to its successor |
| `Sessions.SecondSessionIsDeafIff` | server/src/database/ClientDataManager.cpp:26-26 | a session's own queue is the stored one exactly when its client had none stored |
| `Sessions.SecondSessionCutsOffTheFirst` | server/src/client/ProtocolClient.cpp:23-28 | a concrete run: the end of a second session unregisters the live first one |
| `Sessions.DestructionCutsOffIff` | server/src/client/ProtocolClient.cpp:23-28 | the end of a session takes away the stored queue of another live session exactly when the queue stored for its client is not its own |
| `Sessions.QueueOutlivesSessionIff` | server/src/database/ClientDataManager.cpp:9-28 | a session that registers and ends leaves its queue stored exactly when its registration needed a new id and ids no longer fit a short |
| `Sessions.IdsRunOut` | server/src/database/ClientDataManager.cpp:9-13 | a run from boot in which the ids are used up and the next client's queue outlives its session |
| `Watermarks.OneCall` | server/src/database/ClientDataManager.cpp:122-144 | for each watcher at most three positions come out, each the last of a named client and newer than every mark |
| `Watermarks.MarksRise` | server/src/database/ClientDataManager.cpp:141-141 | no mark goes down, and none stays behind the last position of a named client |
| `Watermarks.StepDeliversNewer` | server/src/client/ProtocolClient.cpp:311-334 | one event hands out only positions newer than the mark and raises the mark to them; the mark stays unless the event starts a new watcher |
| `Watermarks.MarkedAfterStepIff` | server/src/database/ClientDataManager.cpp:44-45 | a step keeps a mark exactly when it does not start a new watcher, or the mark is not past 0 |
| `Watermarks.PositionsOnlyGetNewer` | server/src/database/ClientDataManager.cpp:113-147 | over every run, each position handed out by a fetch is strictly newer than all handed out by an earlier one, unless the client was made a follower again between the two |
| `Watchers.DeliveredByWatchers` | server/src/database/ClientDataManager.cpp:122-144 | what an `Update` hands out about a client is what the watchers for it hand out, one after the other |
| `Watchers.StepEmitsNewer` | server/src/database/ClientDataManager.cpp:129-141 | one event hands out through a watcher only positions past its mark, and takes the mark there |
| `Watchers.WatcherOnlyGetsNewer` | server/src/database/ClientDataManager.cpp:113-147 | over every run, repeated follows included, each watcher hands out strictly newer positions from one fetch to the next, until the follower ceases to follow |
| `Watchers.FollowingAgainHandsOutLast` | server/src/database/ClientDataManager.cpp:44-45 | whatever was handed out before, after a repeated follow the next `Update` hands out the last position again |
| `Watchers.FollowingAgainRepeats` | server/src/database/ClientDataManager.cpp:44-45 | a run from boot in which the same position is handed out twice |
| `NamesFirst.NewsPackets` | server/src/client/ProtocolClient.cpp:313-331 | one packet for each name, then one for each position, in order |
| `NamesFirst.QueueNews` | server/src/client/ProtocolClient.cpp:311-334 | the two loops append exactly these packets behind what was queued |
| `NamesFirst.NamesForExactly` | server/src/database/ClientDataManager.cpp:182-191 | the names delivered are exactly the current non-empty names that some watcher has not cached |
| `NamesFirst.PositionsForExactly` | server/src/database/ClientDataManager.cpp:122-146 | the positions delivered are exactly the last ones of named clients that are past the mark of some watcher |
| `NamesFirst.FetchNames` | server/src/client/ProtocolClient.cpp:313-322 | whoever a fetch locates is named, by a name cached before or delivered in the same fetch |
| `NamesFirst.NobodyIsHandedOutUnnamed` | server/src/database/ClientDataManager.cpp:113-192 | over every run from boot while ids fit, the data manager hands out no position of somebody for a client without having handed out its current name for that client, at the latest in the same fetch |
| `Outgoing.SessionIsProtocolClient` | server/src/client/ProtocolClient.cpp:311-334 | the queue of a session and what it sends are those of a `ProtocolClient` in StableCommunication that handles the same `Update` |
| `Outgoing.GoKeepsCached` | server/src/client/ProtocolClient.cpp:80-85 | every name that the data manager takes a client to know was sent to it, waits in one of its sessions, or was left behind |
| `Outgoing.GoKeepsLog` | server/src/client/ProtocolClient.cpp:80-85 | each position sent, or in a queue, comes after its name, or the name was left behind |
| `Outgoing.LocatedWereNamed` | server/src/client/ProtocolClient.cpp:311-334 | over every run from boot while ids fit: a position sent to a client was preceded, among what was sent to it, by the name its owner bore when it was fetched, unless that name was left in the queue of a destroyed session or of a second session |
| `Outgoing.GoKeepsAccountIff` | server/src/client/ProtocolClient.cpp:23-28 | a step keeps the names taken for known accounted for (sent or waiting) exactly when it is not the destruction of a session that holds the only copy of an unsent one |
| `Outgoing.NamesReachTheirClientIff` | server/src/client/ProtocolClient.cpp:80-85 | over every run from boot while ids fit, every name taken for known is always sent or waiting exactly when no such destruction occurs |
| `Outgoing.LocatedIsNamedIff` | server/src/client/ProtocolClient.cpp:311-334 | a position handed out goes with its name, sent or in the same queue, exactly when the name was sent before, waits in this session, or is news to some watcher |
| `Outgoing.LocatedAreNamedExactly` | server/src/client/ProtocolClient.cpp:311-334 | over every run from boot while ids fit in which a client has one session at a time: a position sent comes after its name exactly when, at the fetch, the name had been sent, waited in the session, or was news to some watcher |
| `LostName.NameIsLost` | server/src/client/ProtocolClient.cpp:311-334 | a run from boot in which a client is sent a position of somebody whose current name was never sent, because a session was destroyed with it in its queue |
| `Wires.PassingIsOk` | server/src/client/SimpleClient.cpp:45-50 | a frame added to an idle buffer keeps the frames of the session apart |
| `Wires.ActKeepsLines` | server/src/client/ClientBuffer.cpp:129-155 | every command, packet sent, answer and partial write keeps, for each session: wire ++ outstanding bytes = the frames of what was passed to `sendPacket`, as long as no frame is added to a busy buffer |
| `Wires.WireCarriesLog` | server/src/client/ClientBuffer.cpp:129-155 | over every run from boot while ids fit in which each frame finds its buffer idle: the wire of each session carries the frames of what was passed to it, and what came from the queue is in the log |
| `Wires.SecondUpdateMeetsHalfSentFrame` | server/src/client/ProtocolClient.cpp:80-85 | a run from boot in which a second `Update` adds its frame to one that is half sent, and the wire will not carry the two |
| `Buffers.Buffer.constructor` | server/src/buffer/Buffer.h:46-50 | no bytes, no chunks |
| `Buffers.Buffer.SetMaxSize` | server/src/buffer/Buffer.cpp:5-7 | changes the maximum and nothing else |
| `Buffers.Buffer.SetStage` | server/src/buffer/Buffer.cpp:29-31 | changes the stage and nothing else |
| `Buffers.Buffer.PushFront` | server/src/buffer/Buffer.h:55-62 | the flat bytes grow at the front; the size stays their length |
| `Buffers.Buffer.PushBack` | server/src/buffer/Buffer.h:64-71 | the flat bytes grow at the back; the size stays their length |
| `Buffers.Buffer.PopChunk` | server/src/buffer/Buffer.cpp:33-42 | the first chunk, possibly empty; refused exactly when no bytes are held; what is left is the rest |
| `Buffers.Buffer.Pop` | server/src/buffer/Buffer.cpp:44-73 | exactly the first n flat bytes, whatever the chunks, empty ones included, and exactly the rest is left; refused exactly when there are fewer |
| `Buffers.Buffer.TakeFront` | server/src/buffer/Buffer.cpp:54-69 | one round moves a prefix of the flat bytes and makes progress in bytes or chunks |
| `Buffers.Buffer.CopyInto` | server/src/buffer/Buffer.cpp:57-65 | copies the counted bytes and touches no others |
| `Buffers.Buffer.PopAll` | server/src/buffer/Buffer.cpp:79-81 | all bytes, leaving none |
| `SocketReads.RecvBytes` | server/src/client/ClientBuffer.cpp:30-64 | the loop with its shrinking vector returns what the specification says, for every sequence of socket answers |
| `SocketReads.DrainMeans` | server/src/client/ClientBuffer.cpp:35-56 | what a read takes: the data of the first k answers, in order, and one more answer if that ends it short; it closes the connection exactly when that answer is end of file or an error other than EAGAIN |
| `SocketReads.KeptIs` | server/src/client/ClientBuffer.cpp:35-56 | the size the vector was last cut to: all that was asked for minus all that was received, unless the read completed |
| `SocketReads.ReturnedIsReceivedIff` | server/src/client/ClientBuffer.cpp:30-64 | the bytes returned are those received exactly when they came in one read, are at most half of those asked for, or are zero from the cut on |
| `SocketReads.TwoBytesSurviveIff` | server/src/client/ClientBuffer.cpp:30-64 | two bytes asked for survive exactly when they came at once or the second one is zero |
| `SocketReads.SplitReadCorrupts` | server/src/client/ClientBuffer.cpp:36-37 | a concrete split read that comes back damaged |
| `Framing.RecvKeepsInv` | server/src/client/ClientBuffer.cpp:66-100 | Receiving implies size <= maximum, so the remaining size never underflows, and Full implies equality; for all socket answers |
| `Framing.EmptyFrameIsStuck` | server/src/client/ClientBuffer.cpp:81-83 | a frame of declared length 0 is never completed |
| `Framing.EmptyFrameArrives` | server/src/client/ClientBuffer.cpp:70-77 | an empty frame, read whole, leaves the receiver waiting |
| `Framing.ClosedStaysClosed` | server/src/client/ClientBuffer.cpp:96-99 | once closed no byte is read and no partial frame is ever completed |
| `Framing.CallAnnounces` | server/src/client/ClientBuffer.cpp:86-92 | one `PacketReceive` for each frame that becomes complete, none otherwise |
| `Framing.CallTellsClosure` | server/src/client/ClientBuffer.cpp:96-99 | a call posts one `Close` when it finds or makes the connection closed, none otherwise |
| `Framing.NothingIsReadAfterFailure` | server/src/client/ClientBuffer.cpp:108-114 | after a failed send no later call reads anything, over every run |
| `Framing.NothingIsSentAfterFailure` | server/src/client/ClientBuffer.cpp:49-58 | after a failed receive nothing more goes to the wire, over every run |
| `Framing.HangingUpIsTold` | server/src/client/ClientBuffer.cpp:96-99 | the end of file on an idle connection is told to the session in the same call |
| `Framing.CallKeepsAligned` | server/src/client/ClientBuffer.cpp:66-100 | a call with faithful reads keeps: bytes consumed = frames handed over ++ the partial frame |
| `Framing.HeaderReadKeepsLocationIff` | server/src/client/ClientBuffer.cpp:69-78 | an open read of the header keeps the place in the stream exactly when the header comes whole and undamaged, or not at all |
| `Framing.HeaderReadKeepsLocationWhen` | server/src/client/ClientBuffer.cpp:69-78 | as written, that is: nothing came, or two bytes of which the second is zero or which came at once |
| `Framing.PayloadReadKeepsLocationIff` | server/src/client/ClientBuffer.cpp:81-94 | an open read of the payload keeps the place exactly when it is undamaged |
| `Framing.CallKeepsLocationIff` | server/src/client/ClientBuffer.cpp:66-100 | a call that leaves the connection open keeps the place exactly when both its reads do; a wrong header is never made good |
| `Framing.InStepIffOrderly` | server/src/client/ClientBuffer.cpp:66-100 | over every run that stays open, the receiver is in step with the stream in all its states exactly when all reads are faithful and no half-received frame is taken |
| `Framing.IntendedCallIsFaithfulIff` | server/src/client/ClientBuffer.cpp:36-36 | with the vector left at its length every fragmentation is faithful but one: a call that gets one byte of a header |
| `Framing.IntendedRunIsOrderlyIff` | server/src/client/ClientBuffer.cpp:36-36 | so with the intended vector the framing result holds for exactly the runs without such a call and without an early `recvData` |
| `Framing.StreamsDecodeUniquely` | server/src/client/ClientBuffer.cpp:69-78 | frames are a prefix code: a stream that begins an encoding has the same frames as far as it goes |
| `Framing.FramesArriveInOrder` | server/src/client/ClientBuffer.cpp:66-100 | for every fragmentation in which headers come whole and nothing is damaged, with the vector as written or as intended, the frames handed over are a prefix of those sent, the buffer is a prefix of the next, each was announced once |
| `Framing.TakeKeepsStepIff` | server/src/client/SimpleClient.cpp:52-62 | `recvData` keeps the receiver in step with the stream exactly when no frame is half received |
| `Framing.TakingEarlyIsPossible` | server/src/client/SimpleClient.cpp:52-62 | a run after which `recvData` takes a half-received frame |
| `Framing.FrameSurvivesIff` | server/src/client/ClientBuffer.cpp:66-94 | a payload read whole survives exactly when it has 1 to 65535 bytes |
| `Framing.FragmentedPayloadIsDamaged` | server/src/client/ClientBuffer.cpp:82-87 | a concrete frame handed over with zeros in it |
| `Framing.HalfHeaderIsTakenAsWhole` | server/src/client/ClientBuffer.cpp:70-76 | one header byte is taken for the whole header |
| `Framing.SendConserves` | server/src/client/ClientBuffer.cpp:129-155 | through any partial write: wire ++ outstanding bytes = the accepted frames, Sending implies there is something to pop, one `PacketSend` for each complete frame |
| `Framing.TransmittedTwice` | server/src/client/ClientBuffer.cpp:139-154 | several partial writes amount to one |
| `Framing.AcceptsEverythingIff` | server/src/client/SimpleClient.cpp:45-50 | `sendData` keeps frames apart for every payload exactly when the outgoing buffer is empty |
| `Framing.SecondFrameIsSwallowed` | server/src/client/SimpleClient.cpp:45-50 | a run in which a second frame is accepted while the first is half sent, and is lost in it |
| `Framing.WireCarriesFrames` | server/src/client/ClientBuffer.cpp:129-155 | over every run, failures of either half included, the wire is a prefix of the frames accepted, and all of them once the buffer is empty |
| `ClientBuffers.ClientBuffer.constructor` | server/src/client/ClientBuffer.cpp:14-16 | both buffers empty, nothing posted |
| `ClientBuffers.ClientBuffer.RecvHeader` | server/src/client/ClientBuffer.cpp:69-78 | the header block of `recv()` is the specified step |
| `ClientBuffers.ClientBuffer.RecvPayload` | server/src/client/ClientBuffer.cpp:81-94 | the payload block of `recv()` is the specified step; the size asked for is never negative |
| `ClientBuffers.ClientBuffer.Recv` | server/src/client/ClientBuffer.cpp:66-100 | `recv()` on chunked buffers refines the flat machine and keeps its invariant |
| `ClientBuffers.SentByMeans` | server/src/client/ClientBuffer.cpp:138-155 | what the answers of the socket take: the first k chunks that hold bytes whole, and of the next one as much as its answer says, which breaks the connection exactly on an error other than EAGAIN |
| `ClientBuffers.ClientBuffer.SendChunk` | server/src/client/ClientBuffer.cpp:102-127 | an answer takes the first bytes of the chunk, as many as it says, all of it at most, and the rest is left; an error takes none and breaks the connection; an empty chunk asks nothing |
| `ClientBuffers.ClientBuffer.SendRound` | server/src/client/ClientBuffer.cpp:139-154 | one round moves exactly what its answer takes of the outstanding bytes to the wire, empty chunks included |
| `ClientBuffers.ClientBuffer.SendHeader` | server/src/client/ClientBuffer.cpp:131-136 | the header goes in front of a full buffer |
| `ClientBuffers.ClientBuffer.Send` | server/src/client/ClientBuffer.cpp:129-155 | the whole loop, for every sequence of socket answers, amounts to one transmission of exactly the prefix they take, and terminates |
| `ClientBuffers.ClientBuffer.SendData` | server/src/client/SimpleClient.cpp:45-50 | appends, forces Full, and sends exactly what the answers take |
| `ClientBuffers.ClientBuffer.RecvData` | server/src/client/SimpleClient.cpp:52-62 | hands over all bytes and empties the buffer |
| `Packets.TypeRoundTrip` | server/src/packet/PacketType.cpp:5-33 | type to byte to type is the identity |
| `Packets.PacketRoundTrip` | server/src/packet/Packet.cpp:22-31 | parsing undoes serialising; serialising undoes parsing exactly for a known type byte |
| `Packets.TablesAgree` | client/src/main/java/com/github/koraxiss/PacketType.java:29-58 | every type has the number that the client's own table gives it, every number in that table is read as its type, and every other number as UNDEFINED |
| `Packets.ClientFindsPacket` | client/src/main/java/com/github/koraxiss/EncryptedMessenger.java:81-98 | the client, by its own table, finds type and argument of every packet the server serialises |
| `Packets.Packet.constructor` | server/src/packet/Packet.cpp:8-8 | an empty packet of the type |
| `Packets.Packet.Copy` | server/src/client/Client.cpp:8-8 | an independent copy with equal content |
| `Packets.Packet.AddTypeToBuffer` | server/src/packet/Packet.cpp:22-24 | the type byte goes in front |
| `Packets.Packet.ParseBuffer` | server/src/packet/Packet.cpp:26-31 | the first byte becomes the type; refused exactly on an empty buffer, which changes nothing |
| `Packets.BytesToSend` | server/src/client/Client.cpp:7-10 | type byte ++ payload, and the packet given is unchanged |
| `Packets.PacketFrom` | server/src/client/Client.cpp:16-26 | the parsed packet; fails exactly on no bytes |
| `Crypto.Pieces` | server/src/crypto/CryptoModule.cpp:18-21 | the pieces concatenate to the text and have 1 to m bytes |
| `Crypto.PiecesRoundUp` | server/src/crypto/CryptoModule.cpp:18-18 | their number is the length divided by m, rounded up |
| `Crypto.DecryptUndoesAnyCutting` | server/src/crypto/CryptoModule.cpp:28-38 | `decryptRSA` inverts every encoder that cuts the text into pieces of at most the maximal length |
| `Crypto.RsaRoundTrip` | server/src/crypto/CryptoModule.cpp:16-38 | `decryptRSA` undoes `encryptRSA`, whose output is ceil(length / M) whole blocks |
| `Crypto.EncryptRsaEndsIff` | server/src/crypto/CryptoModule.cpp:18-18 | the loop of `encryptRSA` ends exactly when the text is empty or the key takes at least one byte, that is, has 12 octets |
| `Crypto.OnlyWholeBlocksDecrypt` | server/src/crypto/CryptoModule.cpp:28-38 | only whole blocks decrypt |
| `Crypto.EncryptRsaLoop` | server/src/crypto/CryptoModule.cpp:16-26 | the accumulating loop computes the concatenated blocks, for every text on which it ends |
| `Crypto.DecryptRsaLoop` | server/src/crypto/CryptoModule.cpp:28-38 | the accumulating loop computes the concatenated texts, or throws exactly when a block does |
| `Crypto.ModuleRoundTripIff` | server/src/crypto/CryptoModule.cpp:48-72 | a module reads what it wrote exactly when it does not write for its peer |
| `Crypto.PeerReadsOuter` | server/src/crypto/CryptoModule.cpp:54-55 | the owner of the private key reads what was written under OuterRSA |
| `Crypto.CryptoModule.constructor` | server/src/crypto/CryptoModule.h:18-38 | no algorithm, no peer key |
| `Crypto.CryptoModule.SetOuterRSAKey` | server/src/crypto/CryptoModule.cpp:6-10 | the key is replaced exactly when the bytes load |
| `Crypto.CryptoModule.Use` | server/src/crypto/CryptoModule.cpp:44-46 | selects the algorithm and nothing else |
| `Crypto.CryptoModule.EncryptBytes` | server/src/crypto/CryptoModule.cpp:48-59 | dispatch to the specified encryption |
| `Crypto.CryptoModule.DecryptBytes` | server/src/crypto/CryptoModule.cpp:61-72 | dispatch to the specified decryption |
| `EncryptedMessengers.FillSlot` | client/src/main/java/com/github/koraxiss/EncryptedMessenger.java:25-26 | one block is written into its 128-byte slot and the earlier slots are untouched |
| `EncryptedMessengers.FillNext` | client/src/main/java/com/github/koraxiss/EncryptedMessenger.java:23-29 | one round of the loop: the next 53 bytes in the next slot |
| `EncryptedMessengers.SendChunks` | client/src/main/java/com/github/koraxiss/EncryptedMessenger.java:15-30 | the array filled in place holds the ciphertext of the text in 53-byte pieces; it overflows exactly for more than 424 bytes |
| `EncryptedMessengers.ServerReadsClient` | client/src/main/java/com/github/koraxiss/EncryptedMessenger.java:15-30 | the server's `decryptRSA` reads exactly the client's text, for every text, and it fits the array exactly up to 424 bytes |
| `EncryptedMessengers.ReceiveInPlace` | client/src/main/java/com/github/koraxiss/EncryptedMessenger.java:43-69 | the buffer is rewritten in place with the text, or with zeros when decryption throws |
| `EncryptedMessengers.ManyBlocks` | server/src/crypto/CryptoModule.cpp:16-26 | a text longer than one block becomes more bytes than one block and than itself |
| `EncryptedMessengers.ClientReadsServerIff` | client/src/main/java/com/github/koraxiss/EncryptedMessenger.java:47-65 | the client reads what the server encrypts for it exactly when it fits one block |
| `EncryptedMessengers.LongTextIsNotRead` | client/src/main/java/com/github/koraxiss/EncryptedMessenger.java:47-65 | with a 512-bit key a text of 54 bytes is not read, and every text of 17 bytes is |
| `EndToEnd.PacketsArrive` | server/src/client/Client.cpp:7-26 | any submissions, partial writes and faithful reads, with a decryption of its own for each frame: every frame handed over unwraps to the packet sent at that place, and all of them once everything is read |
| `EndToEnd.ModuleWraps` | server/src/client/EncryptClient.cpp:34-43 | frames made by a module under its own algorithm unwrap |
| `EndToEnd.ClientWraps` | client/src/main/java/com/github/koraxiss/EncryptedMessenger.java:15-41 | frames made by the client before the session key unwrap at the server |
| `Protocol.ProtocolClient.constructor` | server/src/client/ProtocolClient.cpp:16-21 | the first stage, with OPEN_ENCR sent in the clear |
| `Protocol.ProtocolClient.SendPacket` | server/src/client/ProtocolClient.cpp:69-71 | the packet goes out under the algorithm and key in use |
| `Protocol.ProtocolClient.CloseConnection` | server/src/client/SimpleClient.cpp:76-83 | one more request to erase the session |
| `Protocol.ProtocolClient.DoSetPublicKey` | server/src/client/ProtocolClient.cpp:104-140 | a valid PUBLIC_KEY is answered under it; anything else asks for erasure |
| `Protocol.ProtocolClient.DoSetSymmetricKey` | server/src/client/ProtocolClient.cpp:142-183 | only the echo of the server's own key is accepted |
| `Protocol.ProtocolClient.DoTestKey` | server/src/client/ProtocolClient.cpp:185-219 | any TEST_KEY opens the protocol and registers |
| `Protocol.ProtocolClient.DoStableCommunication` | server/src/client/ProtocolClient.cpp:221-309 | which packets reach the data manager, answer, or ask for erasure |
| `Protocol.ProtocolClient.Receive` | server/src/client/ProtocolClient.cpp:87-102 | dispatch by stage, with the fall-through after `testKey` |
| `Protocol.ProtocolClient.SendRemaining` | server/src/client/ProtocolClient.cpp:80-85 | the first queued packet leaves, if there is one |
| `Protocol.ProtocolClient.Update` | server/src/client/ProtocolClient.cpp:311-334 | news is queued in StableCommunication only, then one packet leaves |
| `Protocol.StageNeverGoesBack` | server/src/client/ProtocolClient.cpp:87-219 | the stage stays or advances by one; the server's key never changes; the peer's key is fixed after the first stage |
| `Protocol.PublicKeyWasAccepted` | server/src/client/ProtocolClient.cpp:104-127 | past the first stage a valid key was received in it, and it is the key in use |
| `Protocol.SymmetricKeyWasEchoed` | server/src/client/ProtocolClient.cpp:142-171 | past the second stage the server's own key came back after that |
| `Protocol.HandshakeOrder` | server/src/client/ProtocolClient.cpp:87-219 | in StableCommunication a valid public key, the echo of the server's key and a test key were received in this order, each in its stage, whatever else the peer sent |
| `Protocol.AdvanceOrErase` | server/src/client/ProtocolClient.cpp:104-183 | before the test a message either advances the stage, answered by one packet with the server's key under the next cipher, or changes neither stage nor peer key, is not answered and asks once for erasure |
| `Protocol.TestOpensOrErases` | server/src/client/ProtocolClient.cpp:185-219 | at the test, a TEST_KEY opens the protocol with the id that registration gave, answered by one OPEN_PROT in the session; anything else changes neither stage nor id, is not answered and asks once for erasure |
| `Protocol.FailureLeavesReadied` | server/src/client/ProtocolClient.cpp:104-214 | a packet that does not come through leaves the cipher that the stage uses, and one request for erasure |
| `Protocol.OnlyNamesAreAnswered` | server/src/client/ProtocolClient.cpp:258-266 | in StableCommunication a SET_NAME is answered by one packet behind the old ones, ACK_OK if and only if the name was granted, ACK_ERR otherwise; nothing else is answered |
| `Protocol.CommandsAreActedOn` | server/src/client/ProtocolClient.cpp:221-309 | in StableCommunication the data manager is called for exactly the five commands, a location of the wrong size excepted, with the session's id; exactly an unreadable packet, CLOSE and such a location ask once for erasure |
| `Protocol.IdIffStable` | server/src/client/ProtocolClient.cpp:23-28 | over every run the id is what registration answered at the accepted test, and 0 before; so it is positive exactly in StableCommunication after a positive answer; Exit is never reached |
| `Protocol.CommandsComeFromClients` | server/src/client/ProtocolClient.cpp:221-309 | if nothing is readable behind a test key, commands are run in StableCommunication only, for the id that registration gave |
| `Protocol.FallThroughActsForNobodyIff` | server/src/client/ProtocolClient.cpp:95-98 | the missing break runs a command for id 0 exactly when a command is readable behind a test that fails (or that registration answers with 0) |
| `Protocol.CommandForNobody` | server/src/client/ProtocolClient.cpp:95-98 | any peer with a valid key can bring that about |
| `Protocol.FallThroughErasesIff` | server/src/client/ProtocolClient.cpp:95-98 | a successful test is followed by an erasure request exactly when the read behind it fails, brings CLOSE, or a location of the wrong size |
| `Protocol.NewsAreReleasedInOrder` | server/src/client/ProtocolClient.cpp:80-85 | over every run, news queued = news sent ++ news still queued |
| `HandshakeSystem.ServerOpensNext` | server/src/client/ProtocolClient.cpp:104-214 | every frame in flight to the server is locked as its present stage opens it |
| `HandshakeSystem.ReaderOpensNext` | client/src/main/java/com/github/koraxiss/Client.java:154-164 | when the reader receives, every frame in flight to it is locked as it will open it |
| `HandshakeSystem.StepKeepsInv` | client/src/main/java/com/github/koraxiss/Client.java:38-209 | every step of the server, of the three client threads and of the environment keeps the joint invariant |
| `HandshakeSystem.CipherAgreement` | client/src/main/java/com/github/koraxiss/CipherModule.java:144-168 | in every reachable state of server, three client threads and both channels, each frame in flight was encrypted under what its receiver uses when it decrypts it, and no thread ever failed |
| `HandshakeSystem.KeyAgreement` | server/src/client/ProtocolClient.cpp:142-219 | a server in StableCommunication and its client hold each other's keys |
| `HandshakeSystem.ClientThreadsTakeTurns` | client/src/main/java/com/github/koraxiss/Client.java:38-178 | while the reader receives, the main thread has finished everything read before |
| `HandshakeSystem.EveryHandshakeEndsInErasure` | server/src/client/ProtocolClient.cpp:95-98 | with this client, reaching StableCommunication always comes with a request to erase the session |
| `HandshakeSystem.HandshakeCanComplete` | client/src/main/java/com/github/koraxiss/Client.java:38-209 | some interleaving completes the handshake: registered server, client in session, ready to read |
| `HandshakeSystem.WhatTheClientAnswers` | client/src/main/java/com/github/koraxiss/Client.java:46-122 | what the main thread puts for each packet before it rests: its public key, the packet itself, ACK_OK, or nothing; and it stops on CLOSE only |
| `HandshakeSystem.ClearTypesAreLow` | client/src/main/java/com/github/koraxiss/SimpleMessenger.java:47-70 | in the clear the client knows exactly the types numbered up to OPEN_ENCR |
| `Conversation.ServerRunsProtocol` | server/src/client/ProtocolClient.cpp:87-102 | over every run of the system, what the server has received followed by what is still to come is what the client put, in order; and the server is where the server model alone goes with those packets, each as it was put and none readable behind it |
| `Conversation.NothingIsLostOrReordered` | client/src/main/java/com/github/koraxiss/Client.java:180-200 | from any state of the joint invariant: received ++ to come = what was to come ++ what was put |
| `Conversation.ServerHandlesReceived` | server/src/client/ProtocolClient.cpp:104-109 | each packet that the server takes is opened, as the client put it |
| `Conversation.MainTakesInOrder` | client/src/main/java/com/github/koraxiss/Client.java:38-48 | the main thread takes the packets of the server one by one, in the order in which they were sent |
| `Conversation.ErasedServerRests` | server/src/client/SimpleClient.cpp:76-83 | an erased session handles nothing more |
| `Ciphers.ServerOpensEqualLock` | server/src/crypto/CryptoModule.cpp:61-72 | the server decrypts whatever the client has encrypted under the lock it opens |
| `Ciphers.ClientOpensEqualLockIff` | client/src/main/java/com/github/koraxiss/CipherModule.java:158-168 | the client decrypts what the server has encrypted under the lock it opens exactly when it is in the clear, in the session, or one block for its own key |
| `Ciphers.ModuleSendsLock` | server/src/crypto/CryptoModule.cpp:48-59 | what the server's module makes of a text is what is sent under the lock of its algorithm and keys, and the loop ends |
| `Ciphers.ModuleOpensLock` | server/src/crypto/CryptoModule.cpp:61-72 | what it makes of a frame is what that lock opens |
| `Ciphers.FramesToServerDecrypt` | client/src/main/java/com/github/koraxiss/CipherModule.java:144-156 | in every reachable state, each frame in flight to the server decrypts to its packet under what the server uses next |
| `Ciphers.ModuleDecryptsFrames` | server/src/crypto/CryptoModule.cpp:61-72 | so the server's module, under the algorithm of the next receive, decrypts each of them to its bytes |
| `Ciphers.FramesToClientDecrypt` | client/src/main/java/com/github/koraxiss/CipherModule.java:158-168 | whenever the client's reader receives, each frame in flight to it decrypts to its packet, provided that the type byte and the server's symmetric key fit one block of the client's key |
| `Ciphers.ClientDecryptsModule` | server/src/crypto/CryptoModule.cpp:48-59 | so the client decrypts what the server's module made of each packet with the algorithm and key it was sent under, under the same proviso |
| `Ciphers.LockedPacketsArrive` | server/src/client/Client.cpp:16-26 | a connection that changes its cipher delivers every packet, in order, as long as each frame is opened with the lock it was sent under |
| `HandshakeSystem.BlockedStaysBlocked` | client/src/main/java/com/github/koraxiss/Client.java:66-71 | the two blocked conditions of the client are permanent |
| `HandshakeSystem.FlagBlocksIff` | client/src/main/java/com/github/koraxiss/Client.java:63-71 | setting `sending` after `put` blocks the main thread for good exactly when the writer is already through |
| `HandshakeSystem.MainCanBlock` | client/src/main/java/com/github/koraxiss/Client.java:63-71 | a run from the connection after which the main thread waits for ever |
| `HandshakeSystem.DoneDeafensIff` | client/src/main/java/com/github/koraxiss/Client.java:126-164 | setting `receiveNext` deafens the client for good exactly when the reader has put its message but not yet cleared the flag |
| `HandshakeSystem.ReaderCanGoDeaf` | client/src/main/java/com/github/koraxiss/Client.java:126-164 | a run from the connection after which the reader waits for ever |

## Left out

- Sockets, epoll, the acceptor and thread objects: system calls.  What a call may answer is a parameter of the model.
- RSA and AES internals, key files and key generation: ciphers are functions of which inverse and length laws are assumed as preconditions (`Sound`, `SoundAes`); a key of k octets takes texts of up to k - 11, section 7.2 of RFC 8017.
- Which bytes load as a public key: a parameter (`loads`).  `getOuterRSAKey` is taken to give back the bytes that were set.
- Registration within `testKey`: its answer is a parameter of the handshake, and modelled with its effects in `Sessions`.
- The decoding of a location (a parameter of `Commands`) and the byte form of ids, names and positions: they depend on object representation.  A location is only required to have 16 bytes; `NewsPackets` takes the byte forms as a parameter.
- The integer widths of times, sizes and coordinates: times are unbounded integers, coordinates reals.  The 16-bit id and the 16-bit frame header are modelled exactly.
- JSON persistence and `Database`: library serialisation.
- The move constructor of `BlockingQueue`: it does not carry the bytes of the pipe over.
- Comparison operators, `BlockBuffer`, type names as strings, loggers, the Android interface, test clients and signal handlers: easy, or input and output.
- `ClientData` and `Watcher` objects: values in the manager's map, updated by replacing the entry.  No reference to them leaves the manager.
- Queue objects behind the pointers in `clientsQueue`: handles, with a count of the `Update` messages in each; the queue itself is modelled separately.
- SocketReads.RecvBytes: a write behind the end of the shrunk vector is taken to land in its capacity and to be zeroed by the final `resize`; what else such a write may do is undefined in C++ and not modelled.
- ClientBuffers.ClientBuffer.Recv: the client's queue is taken to be set, as it is from construction on, and a push to it to succeed.
- BlockingQueues.BlockingQueue.Push: the wait is part of `WakeUps`; the class method starts where the wait ends.
- EncryptedMessengers.SendChunks: the branch after the session key is one call of the cipher and adds nothing.
- Partial reads in the client's `SimpleMessenger`, which `InputStream.read` permits: the handshake system moves whole frames.
- Outgoing.LocatedWereNamed: "sent" is passed to `sendPacket`; what becomes of the frame is the subject of `Wires`.
- Protocol.AdvanceOrErase: a public key of at most 11 octets, with which the answer is never produced (see `EncryptRsaEndsIff`), is not told apart from other keys that load.
- Sessions.IdsRunOut: keys are byte strings of growing length, not encodings of real public keys.
- HandshakeSystem.CipherAgreement: a frame whose lock does not match fails to open; that a wrong key might by chance yield a well-formed packet is not modelled.  The `Close` message and lost connections appear only as the erasure of the session.
- Progress of the Java client and of edge-triggered epoll: does not hold in general; the permanent blockings are characterised instead.
- Sessions.EveryRun: commands of a session that is not registered, which the fall-through after `testKey` permits, are undefined behaviour in the data manager and not events of these runs; `FallThroughActsForNobodyIff` says when they occur.
