# ShadNet plugin: verified models

A Dafny model of the parts of the plugin whose correctness is hardest to see from the code, and proofs of what they
keep. Each region under one mutex is one atomic step; the network, the clock, protobuf parsing and the game's
callbacks are parameters or outputs.

- `Dispatcher`: the Matching2 event dispatcher. A thread sleeps until the next deadline, delivers what is due, and
  does not scan while a caller holds delivery back. The state machine covers every interleaving of schedulers, holds,
  notifications, wake-ups and deliveries; `EventDispatcher` is the shared state, updated in place.
- `ContextTable`: ten context slots with rotating ids, a destroy that waits for a running stop, and stop events that
  carry the object they were made for.
- `RoomPayload`: search and user-list replies laid out in growing vectors that rooms point into. A vector carries a
  count of its reallocations and a pointer the count at which it was taken, so a pointer that a reallocation would
  leave dangling does not read back.
- `RoomCache`: the room, member and peer cache filled from join replies, the answers built from the reply and later
  from the cache, the connection status, the server's announcements and the writes of the signalling handler.
- `MemberAnswers`: the query about one member, with the member's group and attributes, and what it answers after each
  of the server's messages.
- `AuthContext`, `AuthProtocol`, `AuthRequests`: authorization requests. The protocol is a state machine over create,
  start, look-up, submit, reply, delivery, abort, delete, connect and disconnect in every order; the objects (the
  request cell with the game's buffer, the request table, the pending table) are proved beside it.
- `LittleEndian`, `Framing`, `PushEvent`: the ShadNet wire layer: fields, packets cut out of a byte stream that arrives
  in arbitrary pieces, and the hand-packed push event.
- `P2PQueues`: one datagram socket shared by three byte-bounded channels.
- `NpStateEvents`: queued sign-in events and what the callbacks are told of them.
- `RequestSlots`: NpManager's request slots.
- `NpBind`: the bind-file table.
- `BitFields`: bit fields in words of any width, words being sequences of bits.
- `Widths`, `Options`, `OnlineIds`: integer widths with their narrowing casts, an option type, and user names cut to
  sixteen characters.

## Where the code falls short of what one would expect

Each of these is stated by the members named, as a concrete input, an exact condition, or both.

- The hold counter is 32 bits wide; with 2^32 holds alive the dispatcher runs as if there were none
  (`Dispatcher.CounterIsExact`, `HoldsBeyondTheCounter`).
- A context start cancels a deferred destroy (`ContextTable.DeferredDestroy`, `StartCancelsDestroy`,
  `AcceptedDestroyCanBeLost`).
- Stop events are matched by object, not by stop: after a start between two stops, the first stop's event can free the
  slot while the second stop's event is still on its way (`ContextTable.FreedByTheFirstStopEvent`,
  `FirstStopEventFreesEarly`).
- Packet ids are numbered per client while the pending table is keyed by packet id alone. A request that collides is
  lost, and the reply meant for it settles the other one (`AuthProtocol.SubmitQueues`, `PacketIdsCollide`); this
  cannot happen as long as there has been one client (`OneClientNeverLoses`).
- A call that looked the client up before a disconnect can still enter the pending table after the disconnect failed
  the user's requests (`AuthProtocol.OrphansExactlyFromLateSubmits`, `DisconnectLeavesAnOrphan`).
- A join reply about room zero is never forgotten by the cache (`RoomCache.JoinKeepsCache`, `RoomZeroIsNeverForgotten`).
- The join answer finds the owner by id and adds the owner flag for the game; the cache keeps the raw flags and a
  later query finds the owner by flag (`RoomCache.QueryAgreesOnOwner`, `OwnerCanBeForgotten`).
- The signalling handler writes a peer after having given up the lock under which it chose the peer. In between the
  member can leave, and the room can be left for another: the peer table then holds somebody who is no member, or a
  member of the new room under the address of one of the old (`RoomCache.CacheFollowsTheRoom`, `LateWriteRevives`,
  `LateWriteMisdirects`).
- A cached room query does not say who last updated a room attribute (`RoomCache.QueryAgreesOnRoom`), and shows members
  without their group and their attributes (`RoomCache.QueryDropsTheRest`).
- A dispatch of state events calls back outside its locks. Two that overlap can tell a callback of events in the wrong
  order, and leave a user's last notification contradicting the recorded state
  (`NpStateEvents.OverlapLetsTheLaterFirst`, `OverlapMisleads`); dispatches that take turns cannot (`CallsInTurn`,
  `InTurnWithoutOverlaps`).
- A request slot keeps the result of its previous occupant, and an aborted request polls it
  (`RequestSlots.AbortedPollsTheLeftover`, `StaleResult`).
- The byte bound of the signalling channel does not bound the number of packets (`P2PQueues.EmptyDatagramsPileUp`).
- A failed load of a bind file can leave an object that calls itself valid (`NpBind.FailedLoadLooksValid`,
  `HeaderAloneLooksValid`).
- The account variant of the search reply reserves for owner ids it never stores (`RoomPayload.ReservesExactly`).
- The bounds check of `ExtractBlob` adds in 32 bits. A blob whose end, position plus length, would be 2^31 or more
  passes it, and the push-event reader then reads past its payload (`PushEvent.BlobIsUndefined`,
  `NegativeLengthIsAccepted`, `OverflowingLengthIsAccepted`, `UndefinedExactlyForOverflowingLengths`).

## Model

| member | source | states |
|---|---|---|
| Dispatcher.DeliveredOnceInTime | src/core/libraries/np/np_matching2/np_matching2_internal.cpp:1730-1769 | in every interleaving each scheduled event is delivered at most once and never before its time; it is undelivered exactly while it is in the queue or in the batch being delivered, never in both |
| Dispatcher.DeliveryOrder | src/core/libraries/np/np_matching2/np_matching2_internal.cpp:1740-1759 | an event scheduled earlier and due no later than another is delivered first, also when they fall into different scans |
| Dispatcher.NoLostWakeup | src/core/libraries/np/np_matching2/np_matching2_internal.cpp:1735-1766 | asleep, not notified and with nobody between unlock and notify, either a hold is alive or the thread sleeps until exactly the earliest deadline in the queue, forever only if the queue is empty |
| Dispatcher.DueEventIsServed | src/core/libraries/np/np_matching2/np_matching2_internal.cpp:1735-1759 | once holds are gone and notifiers are through, a due event finds the thread notified or timed out, and waking it puts the event into the batch |
| Dispatcher.HoldSafety | src/core/libraries/np/np_matching2/np_matching2_internal.cpp:1715-1738 | an event scheduled under a hold enters no batch until the hold counter has been zero again; the counter always equals the number of live holds modulo 2^32 |
| Dispatcher.OnlyOwnedEvents | src/core/libraries/np/np_matching2/np_matching2_internal.cpp:1802-1814 | the events scheduled are exactly those offered with their context, in that order, so nothing else is ever pending or delivered |
| Dispatcher.RunTallies | src/core/libraries/np/np_matching2/np_matching2_internal.cpp:1715-1769 | over every run a hold is alive from its acquisition to its release, each scheduling and release owes one notification, and each firing delivers one event at its own time |
| Dispatcher.LoopHeadSleepsOrFires | src/core/libraries/np/np_matching2/np_matching2_internal.cpp:1735-1766 | the thread goes to sleep exactly if it sees a hold or nothing is due, forever exactly if it sees a hold or the queue is empty; a notification marks the sleeper |
| Dispatcher.OnePassDeliversAllDue | src/core/libraries/np/np_matching2/np_matching2_internal.cpp:1735-1769 | one pass without holds delivers exactly what is due, in the order of scheduling, and returns to the loop head with the rest still queued |
| Dispatcher.DueIsDelivered | src/core/libraries/np/np_matching2/np_matching2_internal.cpp:1735-1769 | so a due event that is queued while nothing is held is delivered by the next pass |
| Dispatcher.CounterIsExact | src/core/libraries/np/np_matching2/np_matching2_internal.cpp:1715-1728 | the counter is the number of live holds if and only if there are fewer than 2^32 |
| Dispatcher.HoldsBeyondTheCounter | src/core/libraries/np/np_matching2/np_matching2_internal.cpp:1735-1759 | with 2^32 holds alive a due event is taken into a batch all the same |
| Dispatcher.StepPreserves | src/core/libraries/np/np_matching2/np_matching2_internal.cpp:1715-1769 | every step of callers, holds and dispatcher keeps the queue, the delivery order, the deadlines and the hold counter consistent |
| Dispatcher.RunPreserves | src/core/libraries/np/np_matching2/np_matching2_internal.cpp:1715-1769 | so does every sequence of steps |
| Dispatcher.ScanParts | src/core/libraries/np/np_matching2/np_matching2_internal.cpp:1742-1751 | the scan separates exactly the due events from the others |
| Dispatcher.ScanKeepsOrder | src/core/libraries/np/np_matching2/np_matching2_internal.cpp:1742-1751 | both parts stay in the order of scheduling |
| Dispatcher.NearestIsMinimum | src/core/libraries/np/np_matching2/np_matching2_internal.cpp:1743-1750 | the sleep deadline is a lower bound of the remaining deadlines that one of them attains |
| Dispatcher.HeldRunKeepsPending | src/core/libraries/np/np_matching2/np_matching2_internal.cpp:1735-1738 | while the hold counter is not zero no event leaves the queue |
| Dispatcher.EventDispatcher.QueueEvent | src/core/libraries/np/np_matching2/np_matching2_internal.cpp:1802-1814 | scheduling appends an event that still has its context, and drops any other |
| Dispatcher.EventDispatcher.AcquireHold | src/core/libraries/np/np_matching2/np_matching2_internal.cpp:1715-1719 | a hold counts the 32-bit counter up |
| Dispatcher.EventDispatcher.ReleaseHold | src/core/libraries/np/np_matching2/np_matching2_internal.cpp:1721-1728 | a release counts down and owes a notification |
| Dispatcher.EventDispatcher.Notify | src/core/libraries/np/np_matching2/np_matching2_internal.cpp:1727-1727 | notify_all wakes a sleeping thread |
| Dispatcher.EventDispatcher.RunLoopHead | src/core/libraries/np/np_matching2/np_matching2_internal.cpp:1734-1766 | one pass under the mutex ends asleep or with the due events taken, as the state machine says |
| Dispatcher.EventDispatcher.ScanQueue | src/core/libraries/np/np_matching2/np_matching2_internal.cpp:1742-1751 | the erase-while-iterating loop leaves the remaining events, returns the due ones and the earliest remaining deadline |
| Dispatcher.EventDispatcher.FireNext | src/core/libraries/np/np_matching2/np_matching2_internal.cpp:1753-1759 | the batch is delivered from its front |
| ContextTable.RunPreserves | src/core/libraries/np/np_matching2/np_matching2_internal.cpp:1386-1521 | over every sequence of operations a slot holds only an object with its own id, never both started and stopping; a deferred destroy always has a stop to wait for; no object sits in two slots |
| ContextTable.StepPreserves | src/core/libraries/np/np_matching2/np_matching2_internal.cpp:1386-1521 | each single operation keeps this |
| ContextTable.EveryTableIsSound | src/core/libraries/np/np_matching2/np_matching2_internal.cpp:1386-1521 | so it holds after every sequence of operations on the empty table |
| ContextTable.CreateTakesFirstFree | src/core/libraries/np/np_matching2/np_matching2_internal.cpp:1401-1413 | creation fails exactly with all ten slots taken, else takes the cyclically first free id from the rotating position and moves that position behind it |
| ContextTable.CreateLeavesOthers | src/core/libraries/np/np_matching2/np_matching2_internal.cpp:1393-1433 | creation touches no occupied slot |
| ContextTable.GoneForGood | src/core/libraries/np/np_matching2/np_matching2_internal.cpp:1440-1469 | an object that has left its slot never comes back |
| ContextTable.StaleStopChangesNothing | src/core/libraries/np/np_matching2/np_matching2_internal.cpp:1456-1469 | the stop event of such an object changes nothing, however late it comes and whoever has the id by then |
| ContextTable.LeavesOnlyWhenAsked | src/core/libraries/np/np_matching2/np_matching2_internal.cpp:1440-1521 | an object leaves its slot exactly by a destroy while not stopping, by the completion of one of its stops after a deferred destroy, or by a reset |
| ContextTable.DeferredDestroy | src/core/libraries/np/np_matching2/np_matching2_internal.cpp:1440-1485 | a destroy issued during a stop has taken effect when that stop completes if and only if no start came after the last destroy, or some destroy came while the context was running; whatever starts, stops and destroys come in between |
| ContextTable.StartCancelsDestroy | src/core/libraries/np/np_matching2/np_matching2_internal.cpp:1471-1485 | without further destroys: the slot is freed at the completion if and only if nobody started the context in between |
| ContextTable.FreedByTheFirstStopEvent | src/core/libraries/np/np_matching2/np_matching2_internal.cpp:1456-1469 | the first stop event of the object to complete carries out a destroy; later stop events of the object are still on their way then if and only if the context was started between two stops |
| ContextTable.FirstStopEventFreesEarly | src/core/libraries/np/np_matching2/np_matching2_internal.cpp:1456-1469 | a concrete sequence in which the first of two stops frees the slot |
| ContextTable.AcceptedDestroyCanBeLost | src/core/libraries/np/np_matching2/np_matching2_internal.cpp:1480-1482 | a concrete sequence after which an accepted destroy never completes |
| ContextTable.HistoryDecides | src/core/libraries/np/np_matching2/np_matching2_internal.cpp:1440-1500 | over every run from its creation on, an object in the table is started exactly if its last start or stop was a start, stopping exactly if the last accepted stop was neither completed nor followed by a start, and waiting for its destroy exactly if asked to and not started since |
| ContextTable.DestroyFreesAtOnce | src/core/libraries/np/np_matching2/np_matching2_internal.cpp:1440-1454 | a destroy frees the slot at once if and only if no accepted stop is left to be completed |
| ContextTable.CompletedStopIsOver | src/core/libraries/np/np_matching2/np_matching2_internal.cpp:1456-1469 | so it does after a completion, whatever comes in between, unless there was another stop |
| ContextTable.ResetStartsOver | src/core/libraries/np/np_matching2/np_matching2_internal.cpp:1514-1521 | after a reset the slots are empty and the next creation gets id one |
| ContextTable.ContextManager.GetLocked | src/core/libraries/np/np_matching2/np_matching2_internal.cpp:1386-1391 | ids outside one to ten find nothing, others their slot |
| ContextTable.ContextManager.FindFreeSlot | src/core/libraries/np/np_matching2/np_matching2_internal.cpp:1401-1409 | the rotating search loop finds the first free candidate, or zero |
| ContextTable.ContextManager.CreateContext | src/core/libraries/np/np_matching2/np_matching2_internal.cpp:1393-1433 | the new table, the id or the error, and a fresh object |
| ContextTable.ContextManager.Start | src/core/libraries/np/np_matching2/np_matching2_internal.cpp:1471-1485 | the new table and each of the three return codes |
| ContextTable.ContextManager.Stop | src/core/libraries/np/np_matching2/np_matching2_internal.cpp:1487-1500 | the new table and each of the three return codes |
| ContextTable.ContextManager.Destroy | src/core/libraries/np/np_matching2/np_matching2_internal.cpp:1440-1454 | immediate or deferred destroy in place; false exactly for an empty slot |
| ContextTable.ContextManager.CompleteStop | src/core/libraries/np/np_matching2/np_matching2_internal.cpp:1456-1469 | acts only if the slot still holds the very object the event was made for |
| ContextTable.ContextManager.Clear | src/core/libraries/np/np_matching2/np_matching2_internal.cpp:1514-1521 | all slots empty, rotation back at one |
| ContextTable.RequestIdsDiffer | src/core/libraries/np/np_matching2/np_matching2_internal.cpp:1523-1531 | request ids are never zero and repeat only after 2^32 - 1 allocations |
| ContextTable.RequestIdCounter.AllocRequestId | src/core/libraries/np/np_matching2/np_matching2_internal.cpp:1523-1531 | the wrapping counter hands out those ids, skipping zero |
| RoomPayload.GrowingInvalidates | src/core/libraries/np/np_matching2/np_matching2_internal.cpp:98-124 | appending keeps earlier pointers into a vector good exactly if it does not have to grow |
| RoomPayload.CallbackPayload.ReserveExternalRoomPayloadStorage | src/core/libraries/np/np_matching2/np_matching2_internal.cpp:98-124 | each vector is reserved for the total over all rooms of the reply |
| RoomPayload.CallbackPayload.AppendRoom | src/core/libraries/np/np_matching2/np_matching2_internal.cpp:499-579 | one room with its slices is appended without moving anything, and reads back completely |
| RoomPayload.CallbackPayload.BuildSearchRoomPayload | src/core/libraries/np/np_matching2/np_matching2_internal.cpp:467-592 | for every reply all pointers taken on the way are good at the end, each slice reads back that room's groups, integers, binaries and owner in order, the vectors hold exactly the totals, and each room links to the next; each of the thirteen fields is the reply's, cut to sixteen bits where the game's field has no more |
| RoomPayload.ReservesExactly | src/core/libraries/np/np_matching2/np_matching2_internal.cpp:98-124 | the reservation is used up exactly, except that the account variant leaves room for the owner ids the reply has |
| RoomPayload.ChainVisitsAll | src/core/libraries/np/np_matching2/np_matching2_internal.cpp:501-501 | following the links from the first room visits all rooms in order and ends |
| RoomPayload.AppendGroups | src/core/libraries/np/np_matching2/np_matching2_internal.cpp:522-538 | a slice of groups is appended in order behind the earlier ones; null exactly if there are none |
| RoomPayload.AppendInts | src/core/libraries/np/np_matching2/np_matching2_internal.cpp:540-554 | the same for integer attributes |
| RoomPayload.AppendBins | src/core/libraries/np/np_matching2/np_matching2_internal.cpp:556-579 | the same for binary attributes, each pointing to its own copied bytes, or null for none |
| RoomPayload.PrefixNeedsLess | src/core/libraries/np/np_matching2/np_matching2_internal.cpp:106-117 | what the first rooms need never exceeds the reservation |
| RoomPayload.BuildGetUserInfoListPayload | src/core/libraries/np/np_matching2/np_matching2_internal.cpp:1014-1062 | the same guarantee for the list of users and their attributes, with its head and count |
| RoomCache.QueryAgreesOnRoom | src/core/libraries/np/np_matching2/np_matching2_internal.cpp:1127-1171 | after any join reply the cached query answers the same room fields and the same internal attribute ids, dates and bytes; its groups ascend by id, come from the reply, and are all of them exactly if the ids are distinct |
| RoomCache.QueryAgreesOnMembers | src/core/libraries/np/np_matching2/np_matching2_internal.cpp:1173-1202 | the query shows as many members as the reply exactly if the ids are distinct, in ascending order, and then the same ones by join date, id, identity, team and NAT type, with the same me |
| RoomCache.QueryDropsTheRest | src/core/libraries/np/np_matching2/np_matching2_internal.cpp:1175-1184 | with distinct ids the flags of a member agree if and only if an owner was flagged as such, the group if and only if the member is in none of the groups, the attributes if and only if there are none |
| RoomCache.AnswerLasts | src/core/libraries/np/np_matching2/np_matching2_internal.cpp:1116-1206 | the answer for the current room, and with it the agreement, lasts over all status queries, all writes of the signalling handler and all messages about other rooms |
| RoomCache.RoomUpdateIsAnswered | src/core/libraries/np/np_matching2/np_matching2_mm.cpp:532-569 | after an announced update the query answers the new flags and mask and for each attribute its last update, else what it answered before; the rest stays |
| RoomCache.PutBinsHolds | src/core/libraries/np/np_matching2/np_matching2_mm.cpp:544-569 | of several updates of an attribute the last counts, the others stay in place, and nothing is listed twice |
| RoomCache.MemberUpdateIsAnswered | src/core/libraries/np/np_matching2/np_matching2_mm.cpp:651-673 | after an announced update of a member the query answers that member at its place with the new team and flags, everything else and me unchanged |
| RoomCache.QueryAgreesOnOwner | src/core/libraries/np/np_matching2/np_matching2_internal.cpp:1195-1202 | with distinct ids the query names the owner the join answer named if and only if the raw member flags name that owner |
| RoomCache.OwnerCanBeForgotten | src/core/libraries/np/np_matching2/np_matching2_internal.cpp:339-342 | a member marked as owner without the flag is the owner of the join answer and of no later query |
| RoomCache.CacheFollowsTheRoom | src/core/libraries/np/np_matching2/np_matching2.cpp:717-748 | over all runs of joins to nonzero rooms, leaves, status queries, announcements and writes of the signalling handler: the cache holds the room and the members that the messages amount to; leaving empties it; status is inactive exactly for others, active exactly for members whose connection the handler last wrote as active and which has not died since; the address is the one the handler wrote last or else the server's; exactly a peer the handler wrote last may be no member |
| RoomCache.RunOccupies | src/core/libraries/np/np_matching2/np_matching2_internal.cpp:197-285 | room and members after every run are those computed from the messages alone |
| RoomCache.OnePeerChanges | src/core/libraries/np/np_signaling/np_signaling_handler.cpp:1099-1107 | a write, a dead connection and a status query each touch one peer: the name is kept, a dead one is inactive, a queried one pending |
| RoomCache.JoinShowsTheReply | src/core/libraries/np/np_matching2/np_matching2_internal.cpp:126-367 | field by field the answer to a join is the reply: room fields, groups, attributes, members with their group and owner flag, me and owner |
| RoomCache.JoinNamesTheOwner | src/core/libraries/np/np_matching2/np_matching2_internal.cpp:218-242 | after a join the context knows whether I am the owner and who is |
| RoomCache.OnlyWritesAreWritten | src/core/libraries/np/np_signaling/np_signaling_handler.cpp:1099-1104 | a peer counts as written last only by such a write, and with its address |
| RoomCache.LateWriteMisdirects | src/core/libraries/np/np_signaling/np_signaling_handler.cpp:1082-1104 | a write that comes after a leave and a join gives a member of the new room the address of the old room's member with the same id |
| RoomCache.LateWriteRevives | src/core/libraries/np/np_signaling/np_signaling_handler.cpp:1082-1104 | a write that comes after its member left makes a peer of somebody who is no member |
| RoomCache.JoinKeepsCache | src/core/libraries/np/np_matching2/np_matching2_internal.cpp:197-285 | a join keeps the cache in order exactly if the room id is not zero, and makes peers of everybody but me |
| RoomCache.RoomZeroIsNeverForgotten | src/core/libraries/np/np_matching2/np_matching2_internal.cpp:197-199 | a concrete pair of replies after which two rooms are cached |
| RoomCache.StepPreserves | src/core/libraries/np/np_matching2/np_matching2_internal.cpp:197-285 | every operation keeps: nothing cached outside a room, inside that room only; each peer is a member under that address or was written last by the signalling handler |
| RoomCache.RunPreserves | src/core/libraries/np/np_matching2/np_matching2_internal.cpp:197-285 | every sequence of operations keeps it |
| RoomCache.MembersAndPeers | src/core/libraries/np/np_matching2/np_matching2_internal.cpp:246-284 | the peers filled in are the cached members without me, under the same addresses |
| RoomCache.JoinedMembersHaveTheirAddresses | src/core/libraries/np/np_matching2/np_matching2.cpp:730-748 | a status query after the join gives each member the address of the reply, its port in network order |
| RoomCache.KeyedMapCount | src/core/libraries/np/np_matching2/np_matching2_internal.cpp:243-245 | assigning by key keeps as many entries as assignments exactly if no key repeats |
| RoomCache.KeyedMapKeeps | src/core/libraries/np/np_matching2/np_matching2_internal.cpp:243-256 | and then every entry keeps its value |
| RoomCache.InOrderAscends | src/core/libraries/np/np_matching2/np_matching2_internal.cpp:1129-1131 | reading an ordered map gives strictly ascending keys |
| RoomCache.RoomContext.BuildCreateJoinRoomPayload | src/core/libraries/np/np_matching2/np_matching2_internal.cpp:126-367 | fills cache, peers and context in place and builds the answer, both as specified |
| RoomCache.RoomContext.CacheMembers | src/core/libraries/np/np_matching2/np_matching2_internal.cpp:246-284 | the loop over members fills the member map and the peer table |
| RoomCache.RoomContext.BuildLeaveRoomPayload | src/core/libraries/np/np_matching2/np_matching2_internal.cpp:419-437 | leaving the current room empties everything; another id changes nothing; the answer names the room |
| RoomCache.RoomContext.BuildGetRoomDataInternalPayload | src/core/libraries/np/np_matching2/np_matching2_internal.cpp:1116-1206 | the answer from the cache, or nothing for a room not cached |
| RoomCache.RoomContext.SignalingGetConnectionStatus | src/core/libraries/np/np_matching2/np_matching2.cpp:717-748 | the status, and the peer added by asking |
| RoomCache.RoomContext.MemberJoinedEvent | src/core/libraries/np/np_matching2/np_matching2_mm.cpp:472-505 | adds or replaces the member and its peer in a cached room |
| RoomCache.RoomContext.MemberLeftEvent | src/core/libraries/np/np_matching2/np_matching2_mm.cpp:506-522 | removes both, for a known member only |
| RoomCache.RoomContext.RoomDataUpdatedEvent | src/core/libraries/np/np_matching2/np_matching2_mm.cpp:532-569 | new flags and mask, and the attributes replaced or added in turn |
| RoomCache.RoomContext.MemberDataUpdatedEvent | src/core/libraries/np/np_matching2/np_matching2_mm.cpp:651-673 | new team, flags, group and attributes of a known member |
| RoomCache.RoomContext.WritePeer | src/core/libraries/np/np_signaling/np_signaling_handler.cpp:1099-1107 | writes id, address and status of a peer, adding it if need be |
| RoomCache.ReplaceOrAdd | src/core/libraries/np/np_matching2/np_matching2_mm.cpp:557-567 | the first attribute with the id is replaced, or the new one added at the end |
| MemberAnswers.JoinedIsAnswered | src/core/libraries/np/np_matching2/np_matching2_internal.cpp:1208-1306 | after a join with distinct ids a query about a member answers all the reply said of it: fields, the last group with its id, and of each attribute the last mention |
| MemberAnswers.AnnouncedIsAnswered | src/core/libraries/np/np_matching2/np_matching2_mm.cpp:472-505 | after a member was announced the query answers what the announcement said, attributes without dates; others keep their answers |
| MemberAnswers.AnnouncedHasItsAddress | src/core/libraries/np/np_matching2/np_matching2_mm.cpp:483-501 | and a status query its address, port bytes swapped |
| MemberAnswers.UpdatedIsAnswered | src/core/libraries/np/np_matching2/np_matching2_mm.cpp:651-673 | after an announced update the query answers new team, flags and group, each attribute as last mentioned or as before, the rest unchanged |
| MemberAnswers.QueryShowsMembers | src/core/libraries/np/np_matching2/np_matching2_internal.cpp:1173-1184 | a query about the room shows exactly the cached members, each once |
| MemberAnswers.QueryShowsAnnounced | src/core/libraries/np/np_matching2/np_matching2_mm.cpp:472-522 | an announced member is shown from then on with its fields, the others stay, and once it left it is shown no more |
| MemberAnswers.PutMemberBinsOverrides | src/core/libraries/np/np_matching2/np_matching2_mm.cpp:663-669 | attributes mentioned take their last mention, all others stay |
| MemberAnswers.BuildGetRoomMemberDataInternalPayload | src/core/libraries/np/np_matching2/np_matching2_internal.cpp:1208-1306 | the answer about one member from the cache, for the attributes asked for or all |
| OnlineIds.OnlineId | src/core/libraries/np/np_types.h:40-47 | the name, or its first sixteen characters |
| RoomCache.CopyGroups | src/core/libraries/np/np_matching2/np_matching2_internal.cpp:140-157 | the groups as the game sees them, labels cut or padded to eight bytes |
| RoomCache.CopyRoomBins | src/core/libraries/np/np_matching2/np_matching2_internal.cpp:159-176 | the internal attributes as the game sees them |
| RoomCache.FindPayloadGroup | src/core/libraries/np/np_matching2/np_matching2_internal.cpp:287-294 | the first group with the id |
| RoomCache.ShowMembers | src/core/libraries/np/np_matching2/np_matching2_internal.cpp:329-347 | each member as the game sees it, in order |
| RoomCache.MarkLast | src/core/libraries/np/np_matching2/np_matching2_internal.cpp:356-363 | the last member with the id |
| RoomCache.MarkOwner | src/core/libraries/np/np_matching2/np_matching2_internal.cpp:1195-1202 | the last member with the owner flag |
| AuthContext.DecodeReply | src/core/libraries/np/np_handler/np_handler_auth.cpp:70-96 | a code is delivered exactly if the reply is free of error and carries one of legal length in its length-prefixed blob; each failure has its own error |
| AuthContext.AuthErrorFromReply | src/core/libraries/np/np_handler/np_handler_auth.cpp:16-27 | each error reply maps to its own real, negative error |
| AuthContext.CodeReadsBack | src/core/libraries/np/np_auth/np_auth_ctx.h:34-47 | a code without NUL reads back from the game's buffer as a terminated string |
| AuthContext.AuthRequestCtx.SetResult | src/core/libraries/np/np_auth/np_auth_ctx.h:24-33 | the first result stays |
| AuthContext.AuthRequestCtx.SetAuthorizationCode | src/core/libraries/np/np_auth/np_auth_ctx.h:34-48 | writes the padded code and sets OK, or touches neither result nor buffer |
| AuthProtocol.StepMoves | src/core/libraries/np/np_auth/np_auth_ctx.h:24-48 | no step changes a result that is there; the buffer is written only by the delivery that sets OK |
| AuthProtocol.ResultsNeverChange | src/core/libraries/np/np_auth/np_auth_ctx.h:24-48 | so over every run a result and its buffer stay |
| AuthProtocol.QuietAfterAbort | src/core/libraries/np/np_auth/np_auth.cpp:285-299 | once an abort or delete of a started request has returned, its result, the earlier one or aborted, and its buffer never change again |
| AuthProtocol.RunPreserves | src/core/libraries/np/np_handler/np_handler_auth.cpp:44-97 | every run keeps: a buffer written at most once, exactly with result OK, and terminated; the pending table holds exactly the queued requests; live requests have distinct cells and the first sixteen ids |
| AuthProtocol.ReachableIsSound | src/core/libraries/np/np_handler/np_handler_auth.cpp:44-97 | and it holds in every state reachable from the initial one |
| AuthProtocol.QueuedStep | src/core/libraries/np/np_handler/np_handler_auth.cpp:57-65 | a queued request is found by the reply with its packet id, and leaves the table only to that reply or to the failing of its user, which sets its result |
| AuthProtocol.AcceptedIsNeverForgotten | src/core/libraries/np/np_handler/np_handler_auth.cpp:44-97 | in every run an accepted request is in the table, taken by a reply, or has its result |
| AuthProtocol.HeldStep | src/core/libraries/np/np_handler/np_handler_auth.cpp:66-97 | a request taken by a reply is settled by its delivery only: with an earlier result, or the error or the code of that reply |
| AuthProtocol.FailsExactlyTheUsers | src/core/libraries/np/np_handler/np_handler.cpp:264-277 | failing a user's requests removes exactly that user's entries; each of them keeps its earlier result or else ends signed out |
| AuthProtocol.UnsentRequestsEndSignedOut | src/core/libraries/np/np_handler/np_handler_auth.cpp:32-43 | a call without an authenticated client ends signed out, any other goes on to submit |
| AuthProtocol.SignedOutEnds | src/core/libraries/np/np_auth/np_auth.cpp:193-196 | a started call that finds nobody signed in ends its request so |
| AuthProtocol.RequestStep | src/core/libraries/np/np_auth/np_auth.cpp:129-299 | starting binds a request to a new cell unless it was started or aborted before; an abort marks one that was not started; nothing else changes it until its deletion |
| AuthProtocol.StartedAtMostOnce | src/core/libraries/np/np_auth/np_auth.cpp:129-147 | once started or aborted, a request is not started again in any run up to its deletion |
| AuthProtocol.CreateTakesLowestId | src/core/libraries/np/np_auth/np_auth.cpp:82-96 | creation fails exactly with sixteen live requests, else the lowest free id becomes a new request |
| AuthProtocol.PacketIdsCountUp | src/shadnet/client.cpp:494-504 | each client numbers its packets one by one from one |
| AuthProtocol.SubmitQueues | src/core/libraries/np/np_handler/np_handler_auth.cpp:44-49 | a submitted request enters the table if and only if its packet id is not in it; else it is lost and the other entry stays |
| AuthProtocol.LostEndsOnlyByTheGame | src/core/libraries/np/np_handler/np_handler_auth.cpp:44-49 | a lost request gets no result from anybody but the game that aborts or deletes it |
| AuthProtocol.OneClientNeverLoses | src/core/libraries/np/np_handler/np_handler_auth.cpp:44-49 | as long as there has been one client no request is lost |
| AuthProtocol.PacketIdsCollide | src/core/libraries/np/np_handler/np_handler_auth.cpp:44-49 | with two clients the second request can be lost and the reply meant for it be given to the first |
| AuthProtocol.OrphansExactlyFromLateSubmits | src/core/libraries/np/np_handler/np_handler.cpp:213-232 | after a disconnect, a request can become pending for the dead client if and only if some call had already looked the client up |
| AuthProtocol.DisconnectLeavesAnOrphan | src/core/libraries/np/np_handler/np_handler_auth.cpp:41-49 | a reachable state in which a request becomes pending for a user already disconnected and failed |
| AuthProtocol.FirstFreeHolds | src/core/libraries/np/np_auth/np_auth.cpp:89-92 | the least free id from a start lies within as many steps as ids are live |
| AuthRequests.NpAuth.CreateNpAuthRequest | src/core/libraries/np/np_auth/np_auth.cpp:82-96 | the search ends at the lowest free id, within sixteen of the offset; fails exactly with sixteen live |
| AuthRequests.NpAuth.FindError | src/core/libraries/np/np_auth/np_auth.cpp:115-127 | invalid argument, not found, or found |
| AuthRequests.NpAuth.StartRequest | src/core/libraries/np/np_auth/np_auth.cpp:129-147 | starts once, with a fresh cell, and not after an abort; each error |
| AuthRequests.NpAuth.AbortRequest | src/core/libraries/np/np_auth/np_auth.cpp:285-299 | a started request is settled as aborted unless settled; another is marked |
| AuthRequests.NpAuth.DeleteRequest | src/core/libraries/np/np_auth/np_auth.cpp:349-362 | the entry goes, and its cell is settled unless it was |
| AuthRequests.NpAuth.PollAsync | src/core/libraries/np/np_auth/np_auth.cpp:301-347 | answers for started asynchronous requests only, with the cell as it is |
| AuthRequests.NpHandler.RequestAuthorizationCode | src/core/libraries/np/np_handler/np_handler_auth.cpp:29-52 | accepted exactly for an authenticated client, sent under its next packet id, and entered unless that id is pending; every pending request keeps its buffer |
| AuthRequests.NpHandler.DisconnectUser | src/core/libraries/np/np_handler/np_handler.cpp:213-232 | the client goes, and exactly the user's pending requests, each of which keeps its earlier result or ends signed out |
| AuthRequests.NpHandler.Emplace | src/core/libraries/np/np_handler/np_handler_auth.cpp:46-49 | an entry already there is kept |
| AuthRequests.NpHandler.OnAuthReply | src/core/libraries/np/np_handler/np_handler_auth.cpp:54-97 | the entry goes, its request is settled unless it was, and buffer and issuer are written only with a code |
| AuthRequests.NpHandler.FailPendingRequests | src/core/libraries/np/np_handler/np_handler.cpp:264-277 | the erasing loop removes exactly the user's entries and settles each |
| LittleEndian.DecodeEncode | src/shadnet/client.cpp:1032-1065 | decoding an encoding gives the value modulo its width |
| LittleEndian.EncodeDecode | src/shadnet/client.cpp:1032-1065 | encoding a decoding gives the bytes |
| LittleEndian.EncodeAt | src/shadnet/client.cpp:1044-1048 | byte k is the value shifted right by 8k bits |
| LittleEndian.GetLE16Decodes | src/shadnet/client.cpp:1050-1052 | two bytes read as their little-endian value |
| LittleEndian.GetLE32Decodes | src/shadnet/client.cpp:1054-1057 | four bytes read as their little-endian value |
| LittleEndian.GetLE64 | src/shadnet/client.cpp:1059-1065 | the loop reads eight bytes as their little-endian value |
| LittleEndian.PutLE16 | src/shadnet/client.cpp:1032-1035 | exactly the two bytes of the field change |
| LittleEndian.PutLE32 | src/shadnet/client.cpp:1037-1042 | exactly the four bytes of the field change |
| LittleEndian.PutLE64 | src/shadnet/client.cpp:1044-1048 | exactly the eight bytes of the field change |
| LittleEndian.ReadsBack32 | src/shadnet/client.cpp:1054-1057 | a field written reads back |
| Framing.DecodeEncodeAll | src/shadnet/client.cpp:217-250 | packets in front of any stream decode to themselves and leave the rest undisturbed |
| Framing.TruncatedStream | src/shadnet/client.cpp:222-247 | a stream cut inside a packet gives exactly the complete packets |
| Framing.EncodeDecodeStream | src/shadnet/client.cpp:217-250 | of any stream only legal packets are delivered; together they are the stream up to where it ends or its size field is illegal |
| Framing.RecvN | src/shadnet/client.cpp:450-464 | fills the buffer over any fragmentation, exactly if enough bytes come |
| Framing.ReadPacket | src/shadnet/client.cpp:221-248 | one round of the loop takes exactly one packet off the stream, or says why it stops |
| Framing.ReaderThread | src/shadnet/client.cpp:217-250 | for every fragmentation the dispatched packets and the ending are those of the byte stream |
| Framing.BuildPacket | src/shadnet/client.cpp:482-492 | the sender writes the wire form, its size field cut to 32 bits |
| Framing.EncodedFields | src/shadnet/client.cpp:482-492 | in the wire form kind, command, size, id and payload have these places |
| Framing.SendAndReceive | src/shadnet/client.cpp:217-250 | packets sent back to back in whatever pieces arrive unchanged |
| PushEvent.RoundTrip | src/shadnet/client.cpp:943-983 | reading an encoding recovers every field; past 256 pairs the first 256 and no account ids; account ids not sent read as zero |
| PushEvent.EncodingIsInjective | src/shadnet/client.cpp:943-983 | no two events within the limits share an encoding |
| PushEvent.BlobReadsBack | src/shadnet/client.cpp:33-43 | a length-prefixed blob reads back, with the offset behind it |
| PushEvent.SumOverflows | src/shadnet/client.cpp:38-39 | a blob that does not end within the payload passes the bounds check, which adds in 32 bits, if and only if its end is 2^31 or more |
| PushEvent.BlobIsUndefined | src/shadnet/client.cpp:33-43 | reading a blob leaves the payload exactly if its length word is there and the end of the blob, position plus length, is 2^31 or more |
| PushEvent.NegativeLengthIsAccepted | src/shadnet/client.cpp:37-42 | four bytes for which it happens, the length having its top bit set |
| PushEvent.OverflowingLengthIsAccepted | src/shadnet/client.cpp:37-42 | four bytes for which it happens although the length is positive; one less and the blob is refused |
| PushEvent.UndefinedExactlyForOverflowingLengths | src/shadnet/client.cpp:943-983 | for every payload the reader leaves its payload if and only if some blob that the walk reaches would end at 2^31 or later |
| PushEvent.PairsReadBack | src/shadnet/client.cpp:964-978 | so does a list of key/value pairs |
| PushEvent.FieldsOnTheWire | src/shadnet/client.cpp:943-983 | the order of the fields, by a byte string whose fields all differ |
| PushEvent.HandleWebApiPushEvent | src/shadnet/client.cpp:943-983 | the offset walk computes the parse, reads beyond the payload included |
| PushEvent.HandleTail | src/shadnet/client.cpp:960-983 | count, pairs and account ids |
| PushEvent.HandlePairs | src/shadnet/client.cpp:963-978 | the loop reads at most 256 pairs and says whether any was missing or dropped |
| P2PQueues.Classify | src/core/net_util/net_p2p.cpp:42-54 | control and matching2 exactly for the tag followed by their kind, signalling otherwise |
| P2PQueues.BytesAreBounded | src/core/net_util/net_p2p.cpp:195-198 | over every run the counter is the total size of the queued packets, at most 40960; a packet is dropped exactly if it would exceed that |
| P2PQueues.FirstInFirstOut | src/core/net_util/net_p2p.cpp:290-296 | without a stop, what came out and what is queued are what was queued and what was let in, in order |
| P2PQueues.DeliveredInOrder | src/core/net_util/net_p2p.cpp:178-205 | with stops too, packets come out as a subsequence of the arrivals |
| P2PQueues.ChannelsDoNotInterfere | src/core/net_util/net_p2p.cpp:178-309 | each channel behaves as one of its own that sees only its packets, its reads and the stops |
| P2PQueues.ReadersGetTheirPacketsInOrder | src/core/net_util/net_p2p.cpp:283-309 | so readers of a channel get a subsequence of its packets, whatever the others do |
| P2PQueues.ReadersGetWhatWasSent | src/core/net_util/net_p2p.cpp:195-309 | readers of a channel are given datagrams sent on it, in order, each with its sender and the first 2048 of its bytes |
| P2PQueues.NothingIsLostWithinTheBound | src/core/net_util/net_p2p.cpp:195-309 | without a stop, and as long as the datagrams of a channel fit its bound together, what was read and what is queued is all of them |
| P2PQueues.TaggedChannelsAreShort | src/core/net_util/net_p2p.cpp:195-198 | the two tagged channels never hold more than 8192 packets |
| P2PQueues.EmptyDatagramsPileUp | src/core/net_util/net_p2p.cpp:195-198 | on the signalling channel empty datagrams queue up without limit |
| P2PQueues.P2PTransport.StopLocked | src/core/net_util/net_p2p.cpp:154-166 | all queues and counters cleared |
| P2PQueues.P2PTransport.DrainLocked | src/core/net_util/net_p2p.cpp:178-205 | the socket is read empty, each packet to its channel or dropped |
| P2PQueues.P2PTransport.RecvFrom | src/core/net_util/net_p2p.cpp:283-309 | the oldest packet of the channel, cut to the caller's length, or nothing |
| NpStateEvents.QueueIsConserved | src/core/libraries/np/np_manager/np_manager_callbacks.cpp:323-334 | dispatched and queued events together are the events queued, in order |
| NpStateEvents.StateCallbacksSeeAll | src/core/libraries/np/np_manager/np_manager_callbacks.cpp:401-417 | over every run of whole dispatches a state callback registered throughout sees every dispatched event exactly once, in queue order |
| NpStateEvents.BatchCallsHolds | src/core/libraries/np/np_manager/np_manager_callbacks.cpp:369-422 | one dispatch tells registered state callbacks every event, others nothing, and the reachability callback the changes |
| NpStateEvents.BatchingDoesNotMatter | src/core/libraries/np/np_manager/np_manager_callbacks.cpp:387-398 | while a reachability callback stays registered its notifications are those of the event stream in one piece |
| NpStateEvents.SameEventsSameNotifications | src/core/libraries/np/np_manager/np_manager_callbacks.cpp:369-422 | two ways of cutting the same events into batches give the same notifications |
| NpStateEvents.EachUserIsToldChangesOnly | src/core/libraries/np/np_manager/np_manager_callbacks.cpp:387-398 | each user is notified of that user's own stream with consecutive repeats removed |
| NpStateEvents.EachUserOverRuns | src/core/libraries/np/np_manager/np_manager_callbacks.cpp:369-422 | so over every run of whole dispatches, with one reachability callback |
| NpStateEvents.TurnsAreWholeDispatches | src/core/libraries/np/np_manager/np_manager_callbacks.cpp:369-422 | dispatches whose calls are made outside the locks make the calls of whole dispatches, in order, if none that has calls to make takes the queue while another has calls left |
| NpStateEvents.CallsInTurn | src/core/libraries/np/np_manager/np_manager_callbacks.cpp:401-421 | so under that condition order, completeness and changes hold of the calls as they are made |
| NpStateEvents.EveryCallIsMadeOnce | src/core/libraries/np/np_manager/np_manager_callbacks.cpp:401-421 | with overlapping dispatches too no call is lost, made twice or made up |
| NpStateEvents.OverlapLetsTheLaterFirst | src/core/libraries/np/np_manager/np_manager_callbacks.cpp:376-421 | a dispatch that overlaps another can make its first call before the other's remaining ones |
| NpStateEvents.InTurnWithoutOverlaps | src/core/libraries/np/np_manager/np_manager_callbacks.cpp:376-421 | the condition of in-turn runs fails exactly if the run reaches a dispatch to which that applies |
| NpStateEvents.OverlapMisleads | src/core/libraries/np/np_manager/np_manager_callbacks.cpp:424-436 | a concrete overlap after which a user's last notification contradicts the recorded state |
| NpStateEvents.DedupHolds | src/core/libraries/np/np_manager/np_manager_callbacks.cpp:393-395 | every notification is a change, and the last is the last state |
| NpStateEvents.SilenceMeansNoChange | src/core/libraries/np/np_manager/np_manager_callbacks.cpp:393-395 | no notification exactly if the state never changed |
| NpStateEvents.RegistrationsFollow | src/core/libraries/np/np_manager/np_manager_callbacks.cpp:28-200 | over every run the last operation on a callback decides whether it is registered |
| NpStateEvents.EachRegistrationStartsAfresh | src/core/libraries/np/np_manager/np_manager_callbacks.cpp:28-66 | a new reachability registration is told each user's first state and then that user's changes, whatever an earlier one was told; registering again changes nothing |
| NpStateEvents.NobodyIsTold | src/core/libraries/np/np_manager/np_manager_callbacks.cpp:384-392 | without a reachability callback nobody is told of reachability and nothing is recorded |
| NpStateEvents.OthersHearNothing | src/core/libraries/np/np_manager/np_manager_callbacks.cpp:396-416 | a state callback that is not registered hears nothing |
| NpStateEvents.CallsComeInOrder | src/core/libraries/np/np_manager/np_manager_callbacks.cpp:399-421 | a dispatch calls event by event: first callback, occupied slots in order, toolkit; all reachability changes after that |
| NpStateEvents.NpManager.QueueNpStateEvent | src/core/libraries/np/np_manager/np_manager_callbacks.cpp:323-334 | the event is appended, with the identifier for sign-ins only |
| NpStateEvents.NpManager.RegisterReachability | src/core/libraries/np/np_manager/np_manager_callbacks.cpp:28-46 | registers once and forgets the recorded states; each error |
| NpStateEvents.NpManager.UnregisterReachability | src/core/libraries/np/np_manager/np_manager_callbacks.cpp:48-60 | unregisters and forgets the recorded states, or reports that nothing was registered |
| NpStateEvents.NpManager.RegisterStateCallbackA | src/core/libraries/np/np_manager/np_manager_callbacks.cpp:143-170 | the first free slot, unless there is no callback, the function is registered or all eight are taken |
| NpStateEvents.NpManager.UnregisterStateCallbackA | src/core/libraries/np/np_manager/np_manager_callbacks.cpp:172-187 | frees exactly the slot named, with each error |
| NpStateEvents.NpManager.FindChanges | src/core/libraries/np/np_manager/np_manager_callbacks.cpp:387-397 | the loop records states and collects changes |
| NpStateEvents.NpManager.TellAll | src/core/libraries/np/np_manager/np_manager_callbacks.cpp:401-417 | every event to every callback in order |
| NpStateEvents.NpManager.DispatchPendingNpStateCallbacks | src/core/libraries/np/np_manager/np_manager_callbacks.cpp:369-422 | takes the queue and makes exactly the calls specified |
| RequestSlots.RunPreserves | src/core/libraries/np/np_manager/np_manager_requests.cpp:34-93 | over every run the counter counts the slots in use and there are never more than 32 slots |
| RequestSlots.FoundIsLive | src/core/libraries/np/np_manager/np_manager_requests.cpp:65-71 | the lookup finds exactly the live requests |
| RequestSlots.CreateGivesTheLowestFreeId | src/core/libraries/np/np_manager/np_manager_requests.cpp:34-58 | after every run creation fails exactly with 32 live requests, else hands out the lowest id not live and touches no other |
| RequestSlots.EndedStaysEnded | src/core/libraries/np/np_manager/np_manager_requests.cpp:60-84 | an aborted or completed request stays so until it is deleted |
| RequestSlots.PollReportsTheOutcome | src/core/libraries/np/np_manager/np_manager_requests.cpp:340-364 | over any operations up to its deletion a completed asynchronous request polls its outcome if no call works on it again, and an error if one does |
| RequestSlots.AbortedPollsTheLeftover | src/core/libraries/np/np_manager/np_manager_requests.cpp:43-46 | over any operations up to its deletion a request aborted before any call worked on it polls what the previous request left in its slot; aborted if and only if that said so or a later call worked on it |
| RequestSlots.ResultsAreKnown | src/core/libraries/np/np_manager/np_manager_requests.cpp:60-93 | a slot only ever holds OK, signed out, or one of the two errors of working on an ended request |
| RequestSlots.StaleResult | src/core/libraries/np/np_manager/np_manager_requests.cpp:340-364 | a concrete sequence in which an aborted request polls the outcome of the request before it, success or signed out |
| RequestSlots.ReadyUntilUsed | src/core/libraries/np/np_manager/np_manager_requests.cpp:340-364 | until a call works on a request or aborts it, it stays ready, keeps the leftover result and polls as invalid |
| RequestSlots.AnswersAreExact | src/core/libraries/np/np_manager/np_manager_requests.cpp:43-364 | each return code of working on, aborting, deleting and polling a request exactly in its own case |
| RequestSlots.EndsExactlyOne | src/core/libraries/np/np_manager/np_manager_requests.cpp:43-364 | an abort ends a request that is not complete and keeps its result; a delete frees one id and leaves the others |
| RequestSlots.RequestTable.CreateNpRequest | src/core/libraries/np/np_manager/np_manager_requests.cpp:34-58 | the slot search and the new table |
| RequestSlots.RequestTable.UseRequest | src/core/libraries/np/np_manager/np_manager_requests.cpp:60-84 | lookup and completion for a user signed in or not, with each error and its recorded result |
| RequestSlots.RequestTable.CompleteRequest | src/core/libraries/np/np_manager/np_manager_requests.cpp:86-93 | records the outcome; asynchronous failures answer OK |
| RequestSlots.RequestTable.AbortRequest | src/core/libraries/np/np_manager/np_manager_requests.cpp:261-280 | aborts unless complete; not found |
| RequestSlots.RequestTable.DeleteRequest | src/core/libraries/np/np_manager/np_manager_requests.cpp:366-381 | frees the slot; not found |
| RequestSlots.RequestTable.PollAsync | src/core/libraries/np/np_manager/np_manager_requests.cpp:340-364 | the slot's result, or each of the two errors |
| NpBind.ParseUndoesEncode | src/core/file_format/npbind.cpp:53-104 | parsing undoes the encoding of every list of bodies, whatever the padding is and whatever follows the last body |
| NpBind.ParsedIsEncoded | src/core/file_format/npbind.cpp:53-104 | what parses is an encoding, also the part read before a failure; success exactly if the count was reached |
| NpBind.LoadAcceptsExactlyTheFormat | src/core/file_format/npbind.cpp:33-115 | loading succeeds on exactly the files made of a header with the magic number and an encoding of as many bodies as it says, and yields those |
| NpBind.FieldsAreBigEndian | src/core/file_format/npbind.h:17-29 | integer fields spelled out, the first byte counting most |
| NpBind.HeaderIsAt | src/core/file_format/npbind.cpp:41-45 | each header field by its bytes in the file |
| NpBind.EntryIsAt | src/core/file_format/npbind.cpp:62-79 | kind, length and bytes of an entry by their place |
| NpBind.BodyIsAt | src/core/file_format/npbind.cpp:81-93 | the four entries of a body follow each other, communication id first |
| NpBind.DigestIsTheEnd | src/core/file_format/npbind.cpp:106-112 | a successful load takes the last twenty bytes as digest, a failed one leaves zeros |
| NpBind.FailedLoadLooksValid | src/core/file_format/npbind.cpp:41-104 | a failed load leaves an object that calls itself valid exactly if the header is there with the magic number and no list of as many bodies as it claims is encoded behind it |
| NpBind.HeaderAloneLooksValid | src/core/file_format/npbind.cpp:41-60 | for example a header that claims bodies with nothing behind it |
| NpBind.BodiesFitTheData | src/core/file_format/npbind.cpp:53-60 | whatever the header claims, at most as many bodies as fit are read |
| NpBind.EntryHolds | src/core/file_format/npbind.cpp:63-80 | parsing an entry accepts exactly its encodings |
| NpBind.BodyHolds | src/core/file_format/npbind.cpp:56-93 | parsing a body accepts exactly its encodings |
| NpBind.HeaderHolds | src/core/file_format/npbind.cpp:41-45 | the header reads back and rewrites to its bytes |
| NpBind.NPBindFile.ReadEntry | src/core/file_format/npbind.cpp:63-80 | the entry at the offset; the offset never passes the end |
| NpBind.NPBindFile.ReadBody | src/core/file_format/npbind.cpp:56-93 | the body at the offset, likewise |
| NpBind.NPBindFile.LoadBodies | src/core/file_format/npbind.cpp:53-104 | the loop reads what the parse says |
| NpBind.NPBindFile.Load | src/core/file_format/npbind.cpp:33-115 | header, bodies, digest and result, for every input |
| NpBind.CommIdsInOrder | src/core/file_format/npbind.cpp:117-131 | the ids of a list are those of its parts in order, and one body adds its own id, or nothing if that is empty |
| NpBind.NPBindFile.GetNpCommIds | src/core/file_format/npbind.cpp:117-131 | the loop collects the communication ids |
| BitFields.ReadAfterAssign | src/common/bit_field.h:144-150 | reading after an assignment gives the value cut to the field, zero- or sign-extended |
| BitFields.AssignOfRead | src/common/bit_field.h:144-150 | assigning what was read changes nothing |
| BitFields.LastAssignWins | src/common/bit_field.h:144-146 | the last of two assignments wins |
| BitFields.DisjointFieldsUnchanged | src/common/bit_field.h:144-150 | an assignment leaves disjoint fields as they are |
| BitFields.DisjointAssignsCommute | src/common/bit_field.h:144-146 | assignments to disjoint fields commute |
| BitFields.FormattedValuesAssemble | src/common/bit_field.h:102-109 | values formatted for disjoint fields and or-ed together read back each from its field |
| BitFields.UnsignedReadIsRemainder | src/common/bit_field.h:116-124 | an unsigned read is the assigned value modulo two to the field's length |
| BitFields.SignedReadIsWrapped | src/common/bit_field.h:116-124 | a signed read is that remainder wrapped into the field's signed range |
| BitFields.FieldHoldsExactlyItsRange | src/common/bit_field.h:116-150 | a field gives a value back if and only if it lies in the field's range |
| BitFields.MaskBit | src/common/bit_field.h:100-100 | the mask covers exactly the field's bits |
| BitFields.AssignedBit | src/common/bit_field.h:144-146 | an assignment sets exactly the field's bits |
| BitFields.ExtractedBit | src/common/bit_field.h:116-124 | a read shows the field's bits, then zeros or the sign |
| BitFields.BitField.Assign | src/common/bit_field.h:144-146 | in place: the field holds the cut value, all other bits are unchanged |
| BitFields.BitField.Value | src/common/bit_field.h:148-150 | the value read is one that fits the field |

## Left out

- Dispatcher.EventDispatcher.RunLoopHead: the run flag is taken to be set; clearing it belongs to ending the thread.
- Dispatcher.EventDispatcher.FireNext: the switch on the event type that picks the game's callback, and the stop completion a stopped event triggers, are an opaque `content`; the delivery is what is modelled.
- Starting and ending the dispatcher thread: the run flag is cleared without the queue mutex, so a sleeping thread can miss it; only runs of a live dispatcher are modelled.
- ContextTable.ContextManager.CreateContext: the null check of the out-parameter, the owner's identity, the callbacks and the cache reset are not modelled.
- ContextTable.ContextManager.Destroy: the cache reset of the slot is not modelled.
- ContextTable.ContextManager.CompleteStop: the cache reset of the freed slot is not modelled.
- ContextTable.ContextManager.Clear: the reset of the caches and of the pending context callback is not modelled.
- RoomPayload.GrowingInvalidates: a vector that grows always moves, to a capacity of 2n + 1; the standard library may choose another capacity.
- RoomPayload.CallbackPayload.BuildSearchRoomPayload: covers the plain and the account variant; the external room-list builders fill the same structures with the same loops and are not repeated.
- RoomCache.RoomContext.BuildCreateJoinRoomPayload: the account variant of the answer, which shows the same members, is not repeated; the slices of member attributes are values, since `RoomPayload` proves the pointer side.
- RoomCache.QueryAgreesOnMembers: compares what both answers carry; `RoomCache.QueryDropsTheRest` says what the query leaves out.
- RoomCache.RoomContext.SignalingGetConnectionStatus: the context look-up, and connection id, ping and the flags of a peer that only the signalling handler uses, are not modelled.
- RoomCache.CacheFollowsTheRoom: the signalling handler may write any peer, address and status at any time here; the code writes about members it saw earlier. The reset of a context's cache, when its slot is reused, is not among the operations.
- RoomCache.RoomContext.WritePeer: connection id, ping and the delays before a connection counts as established are not modelled; the status written is a parameter.
- RoomCache.RoomContext.RoomDataUpdatedEvent: the update built for the game's callback, with the previous flags and mask, is not modelled.
- RoomCache.RoomContext.MemberDataUpdatedEvent: the update built for the game's callback is not modelled.
- RoomCache.RoomContext.MemberJoinedEvent: the room update built for the game's callback is not modelled.
- RoomCache.RoomContext.MemberLeftEvent: the room update and the dead-peer signalling event are not modelled.
- MemberAnswers.BuildGetRoomMemberDataInternalPayload: an attribute the member does not have is answered with size zero; that it points to 64 zero bytes is not modelled, nor are the pointers, which `RoomPayload` covers for the same vectors.
- AuthProtocol.RunPreserves: packet counters are unbounded; the code's 64-bit counter would wrap after 2^64 packets.
- AuthContext.DecodeReply: the protobuf parser is a function parameter; what it makes of a blob of 2^31 bytes or more, which no packet can carry, is its own affair.
- AuthRequests.NpHandler.DisconnectUser: one step here, where the code takes its locks one after the other (`AuthProtocol` interleaves the parts); friend state, the stop of the client and the state callback are not modelled.
- AuthRequests.NpHandler.FailPendingRequests: the authorization table only; the code empties the score and TUS tables by the same loop.
- Authorization parameter checks, the user look-up, timeouts, and the older identity-token calls: not modelled.
- TUS and score pending tables: score registers a request after submitting it, so the no-lost-reply claims are made for authorization only.
- Framing.RecvN: the termination flag, which can end a read early, is the same as the stream ending there.
- Framing.ReaderThread: the termination flag, and the connection state set after the loop, are not modelled.
- PushEvent.HandleWebApiPushEvent: requires a payload no longer than the reader delivers, which keeps the offsets themselves small; the sum of offset and length in the bounds check can still overflow, and is modelled as wrapping around. What a read beyond the payload returns is not modelled.
- P2PQueues.P2PTransport.RecvFrom: binding, restarting and addressing of the socket and null out-parameters are not modelled; `socket` is what the socket hands out during the call, and a stopped transport hands out nothing.
- P2PQueues.P2PTransport.StopLocked: closing the socket and resetting port and retry time are not modelled.
- NpStateEvents.NpManager.DispatchPendingNpStateCallbacks: one whole dispatch, the calls being the returned list; `NpStateEvents.Threads` separates taking the queue from the calls.
- NpStateEvents: the registrations of the first and the toolkit callback are arbitrary changes between dispatches.
- RequestSlots.RequestTable.UseRequest: whether the user is signed in is a parameter; checks of other parameters and what the calls write besides are not modelled.
- NpBind.NPBindFile.Load: reserving memory for the claimed number of entries, which throws for huge claims, is not modelled; the file overload only reads the file.
- BitFields: the enumeration types a field may have are their underlying integers.
- Sockets, DNS, HTTP, files, settings, hooks, logging, dialogs, pad polling and privilege calls: no behaviour to prove here.
