# A verified model of the transport library

The library moves bytes between processes on Linux. Its heart is a reactor: subscribers' descriptors are watched by
epoll, one thread turns ready descriptors into notifications, another hands the events to the handlers, and any number
of threads subscribe, unsubscribe and clean up meanwhile. Around it stand a sorted lookup table, endpoints that connect,
accept, read and report, the loops that cope with partial reads and writes, and two small parsers.

| file | what it models |
|---|---|
| `ReactorTables.dfy` | the reactor's four tables, and what one uninterrupted public call or notification makes of them |
| `SerialReactor.dfy` | runs of uninterrupted calls and notifications |
| `InterleavedReactor.dfy` | the same reactor, one lock-protected section of one thread at a time |
| `Reachability.dfy`, `UninterruptedCalls.dfy`, `UninterruptedNotifications.dfy` | the bridge: a call, or a turn of the event thread, that is not interrupted does what `ReactorTables` says |
| `OrderlyReactor.dfy`, `TolerantReactor.dfy`, `WitnessRuns.dfy` | when the serial guarantees survive interleaving, and runs that show both sides |
| `Reactor.dfy` | the reactor, its demultiplexer and its queue as objects, proved against `ReactorTables` |
| `Events.dfy` | events and epoll masks |
| `VectorTable.dfy`, `StdAlgorithms.dfy` | the lookup table kept in a sorted vector, and the standard algorithms it uses |
| `ConfigurationReader.dfy`, `ConfigurationBook.dfy`, `Texts.dfy` | the two text parsers |
| `LinuxIOUtilities.dfy` | read, readLine, recv and write against a script of kernel answers |
| `NamedPipeServer.dfy`, `ClientEndpoint.dfy` | input delivery; connection states and reports |
| `ConnectionInitialiser.dfy` | connector and acceptor: completion callbacks and endpoint ownership |
| `NetworkAddress.dfy`, `Paths.dfy` | addresses and paths, printed and parsed |
| `ObservableStatePublisher.dfy` | observers and their identifiers |

System calls, timers and the code of handlers appear as parameters: a script of answers, a flag for what the kernel
says, a function for what a handler answers. A class is proved against a function on values (`State()`, `Value()` or
`T()` gives the value of an object); the theorems are about those functions and about runs of them.

## Where the code does less than it seems to promise

Each of these comes with the exact condition for it, or, for the erased end iterator, with a condition on the callers that
rules it out over every interleaving.

- Cleanup drops expired and unregistered subscribers without telling epoll. A descriptor whose handler answers
  INVALID_REFERENCE, or that is subscribed again while live (the table answers false for an update, so its entry is left
  unregistered), stays watched without an entry; until it is closed it can be neither subscribed, unsubscribed nor served
  (`SerialReactor.OrphanedExactlyWhen`, `SerialReactor.RunOrphansExactlyWhen`, `SerialReactor.ExpiredIsOrphaned`,
  `SerialReactor.OrphanStaysLost`).
- Unsubscribing erases at a position that is only there while the descriptor is mapped. Where calls and notifications are
  both uninterrupted it always is (`SerialReactor.EveryRunFromEmpty`). Interleaved, it is in every run in which no two calls
  remove one subscriber at once, and the event thread never writes back a registered copy of an entry after a removal of
  that subscriber has overlapped its hold (`TolerantReactor.TolerantInterleaving`). So a handler may unsubscribe itself, as
  connector and acceptor do on every completion (`WitnessRuns.CompletionIsTolerated`), but it must not then answer
  INVALID_REFERENCE for the same notification - which a connector does when a refused connection reports ERR and HUP
  together (`WitnessRuns.RefusedConnectionBreaksMapping`). The other runs that come to erase the end iterator are two threads
  unsubscribing one identifier, and a single uninterrupted unsubscribe between the event thread's two lookups
  (`WitnessRuns.TwoUnsubscribersAreUndefined`, `WitnessRuns.UnsubscribeDuringLookupBreaksMapping`).
- A handler can be replaced while it is dispatched, and the rest of the events then go to the new one
  (`InterleavedReactor.DispatchedHandlerChangesExactlyWhen`, `WitnessRuns.ReplacedHandlerIsServed`).
- The connector asks whether an event is ERR or HUP by intersecting enumerators that are consecutive numbers, so IN and
  SHUTDOWN fail the attempt as well (`ConnectionInitialiser.ConnectorFailsOn`). An accept that fails leaves its entry in the
  table, watched by nobody; nothing else does (`ConnectionInitialiser.TableStaysWatchedExactlyWhen`).
- An empty input callback, registered where none was set, throws the first message away; so does input that comes under
  another key while a first message waits (`NamedPipeServer.RunConserves`).
- A section without a pair in front of another section makes the configuration parser count over a reversed range
  (`ConfigurationReader.ParsingUndoesPrinting`). Text above the first section that does not end its line gets into the key
  of a pair on the line of the `[`; other text there, if it holds no `[`, changes nothing
  (`ConfigurationReader.LeadingTextExactlyWhen`).
- `recv` asked for a whole buffer or more can drop bytes it has received; asked for less it cannot
  (`LinuxIOUtilities.NeverLosesExactlyWhen`).
- A connection attempt broken off by `disconnect` leaves its flag behind; only becoming connected uses it up
  (`ClientEndpoint.FlagSetExactlyWhen`, `ClientEndpoint.BrokenOffAttemptCanConnect`).
- `collectionFor` never returns for an empty separator and a value that is not empty (`ConfigurationBook.LoopEndsExactlyWhen`).
- `fullPath` drops the file name when the directory is empty (`Paths.SplittingUndoesJoining`).

## Model

| member | source | states |
|---|---|---|
| InterleavedReactor.EveryInterleavingFromEmpty | TransportInfra/Reactor/Reactor.hpp:195-331 | in every interleaving of any number of calling threads, the monitor and the event thread: the handlers in progress are exactly the one being dispatched and it is in the table; every key is the hash of its descriptor, in the tables and in every copy a thread holds; notifications are consumed in push order up to the first last one; a handler is served if and only if the lookups found a live entry and a handler, and then gets every event once unless cut short |
| InterleavedReactor.EveryInterleaving | TransportInfra/Reactor/Reactor.hpp:350-426 | the same from any state that satisfies the three invariants |
| InterleavedReactor.StepKeepsInvariant | TransportInfra/Reactor/Reactor.hpp:290-319 | each single section of a call or of the event thread keeps the three invariants |
| InterleavedReactor.CallKeepsProgress | TransportInfra/Reactor/Reactor.hpp:290-331 | no section of a public call changes which handlers are in progress: cleanup and unsubscribe erase only handlers that are not, and adding a handler keeps the flag |
| InterleavedReactor.EventKeepsProgress | TransportInfra/Reactor/Reactor.hpp:373-415 | the event thread sets the flag on entering a dispatch and clears it on leaving, and no wrapper it meets is empty |
| InterleavedReactor.CallTouchesHandlersSafely | TransportInfra/Reactor/EventHandlerSubscriber.h:98-106 | a section of a call leaves the handlers table as it was, erases one handler not in progress, or assigns one keeping its flag |
| InterleavedReactor.DispatchedHandlerStays | TransportInfra/Reactor/Reactor.hpp:399-415 | whatever the other threads do, the handler being dispatched stays in the table, and the event thread's subscripting never inserts a key |
| InterleavedReactor.EventKeepsHandlerKeys | TransportInfra/Reactor/Reactor.hpp:403-415 | no step of the event thread adds or removes a key of the handlers table |
| InterleavedReactor.KeySearchNeverRepeats | TransportInfra/Reactor/Reactor.hpp:242-254 | the key-search loop of subscribe ends after one turn, in every interleaving |
| InterleavedReactor.EventKeepsKeys | TransportInfra/Reactor/Reactor.hpp:371-411 | contexts the event thread writes back carry the key they are written under, and their descriptor's hash |
| InterleavedReactor.CallKeepsKeys | TransportInfra/Reactor/Reactor.hpp:242-283 | every section of a public call keeps key, context identifier and hash in agreement |
| InterleavedReactor.EnteringKeepsHistory | TransportInfra/Reactor/Reactor.hpp:387-400 | when a dispatch begins, each event bit of the mask is due exactly once, whatever the sort does |
| InterleavedReactor.DeliveryKeepsStep | TransportInfra/Reactor/Reactor.hpp:399-413 | one delivery: delivered and still due events together remain each bit once, and INVALID_REFERENCE cuts the rest off |
| InterleavedReactor.PoppingKeepsHistory | UtilitiesInfra/shared_queue.hpp:92-98 | taking from the queue consumes the notifications in the order they were pushed |
| InterleavedReactor.LookupsAreRecorded | TransportInfra/Reactor/Reactor.hpp:371-377 | what a notification's record says the two lookups found is what the tables held in the sections that looked, and no later section changes it |
| InterleavedReactor.DispatchedHandlerChangesExactlyWhen | TransportInfra/Reactor/Reactor.hpp:290-294 | while a handler is dispatched another takes its place if and only if a subscribe's last section adds one under the identifier |
| InterleavedReactor.FoundHandlerIsServed | TransportInfra/Reactor/Reactor.hpp:399-403 | over every interleaving in which that does not happen, every call goes to the handler the notification's lookup found |
| InterleavedReactor.ExpiredGetsNothing | TransportInfra/Reactor/Reactor.hpp:371-376 | once an identifier is marked expired it gets no event, in any interleaving, until a subscribe writes its entry again |
| InterleavedReactor.SilenceLasts | TransportInfra/Reactor/Reactor.hpp:407-411 | the same for any identifier whose entry is expired or absent and which is not being served |
| InterleavedReactor.OnlySubscribeWrites | TransportInfra/Reactor/Reactor.hpp:266-286 | no section but a subscribe's own write changes or adds an entry |
| InterleavedReactor.HandlerNeedsWatching | TransportInfra/Reactor/Reactor.hpp:276-286 | a subscribe goes on to add its handler only behind a registration confirmed, or, for an entry that was there, if and only if epoll watches the descriptor and accepts the new mask |
| InterleavedReactor.RefusedExactlyWhen | TransportInfra/Reactor/Reactor.hpp:258-286 | the exact sections, and what the tables hold there, in which a subscribe is refused |
| MonitorThread.HangUpWaitsForInput | TransportInfra/Reactor/EpollDemultiplexer.h:167-169 | every bit that epoll reports is passed on but a hang-up (4) that comes together with input (0) |
| MonitorThread.HangUpComesAlone | TransportInfra/Reactor/EpollDemultiplexer.h:164-169 | so the event thread hands over HUP if and only if it was reported without input, and IN and ERR if and only if reported |
| MonitorThread.PushesExactly | TransportInfra/Reactor/EpollDemultiplexer.h:232 | a ready descriptor pushes one notification, not the last, with its descriptor and those bits; a stop request pushes a last one; nothing else pushes |
| MonitorThread.StopRequestEndsTheTurns | TransportInfra/Reactor/Reactor.hpp:149-166 | in every interleaving, what was pushed before a stop request is all that the event thread still consumes, and with the request it stops |
| MonitorThread.HeldUpExactlyWhen | TransportInfra/Reactor/Reactor.hpp:350-366 | the event thread can take a step unless it has stopped, waits with an empty queue, or waits for the table another thread has locked |
| TolerantReactor.TolerantInterleaving | TransportInfra/Reactor/Reactor.hpp:195-426 | in every interleaving in which no two calls remove one subscriber at once, and the event thread writes no registered copy back that a removal has overlapped, no end iterator is ever erased; and whenever no removal is half done, every registered context is mapped and watched and unsubscribing any identifier is defined. A handler may unsubscribe itself |
| TolerantReactor.StepTolerates | TransportInfra/Reactor/Reactor.hpp:350-416 | each section keeps: apart from what the event thread holds, registered entries are mapped and watched or about to be removed and a call that links a descriptor is alone with it; as long as no removal has overlapped the hold, the held copy is linked too |
| TolerantReactor.NothingHeldIsClean | TransportInfra/Reactor/Reactor.hpp:360-377 | between two notifications the whole invariant is back, whatever removals overlapped the last one |
| TolerantReactor.UnsoundIsIntolerant | TransportInfra/Reactor/Reactor.hpp:407-411 | every run that erases an end iterator, or leaves a registered context unmapped with no removal half done, has two calls remove one subscriber or a removal and a registered write-back in one hold |
| TolerantReactor.OrderlyInterleaving | TransportInfra/Reactor/Reactor.hpp:195-286 | the same conclusion for runs in which no removal ever overlaps a hold, as a corollary |
| WitnessRuns.CompletionIsTolerated | TransportInfra/EndpointConnectionInitialiserBase.hpp:107-114 | a run in which a handler unsubscribes itself on OUT, the endpoint subscribes the descriptor again and the answer is SUCCESS: not orderly, tolerated, and it ends with everything registered mapped and watched and nothing in progress |
| OrderlyReactor.NobodyElseLinks | TransportInfra/Reactor/EpollDemultiplexer.h:239-260 | a descriptor that epoll does not watch is linked and unlinked by no call and held registered by no copy |
| OrderlyReactor.UnlinkingAlone | TransportInfra/Reactor/EpollDemultiplexer.h:262-271 | of orderly calls, whoever unmaps a descriptor is the only one whose links to it matter |
| OrderlyReactor.UnmappingTwice | TransportInfra/Reactor/EpollDemultiplexer.h:262-271 | two calls before the unmapping of one descriptor: when the first has unmapped and unwatched it, the second erases the end iterator if and only if another descriptor is mapped |
| WitnessRuns.TwoUnsubscribersAreUndefined | TransportInfra/Reactor/Reactor.hpp:200-206 | two threads that unsubscribe one identifier reach a state in which both remove it, and from there an erase of the end iterator |
| WitnessRuns.RefusedConnectionBreaksMapping | TransportInfra/EndpointConnectionInitialiserBase.hpp:116-121 | a refused connection: on ERR the handler unsubscribes itself and answers FAILURE, to HUP of the same notification it answers INVALID_REFERENCE; with every call returned a context is registered and not mapped, and unsubscribing it erases the end iterator |
| WitnessRuns.BrokenIsIntolerant | TransportInfra/Reactor/Reactor.hpp:407-411 | no tolerant run ends so |
| WitnessRuns.UnsubscribeDuringLookupBreaksMapping | TransportInfra/Reactor/Reactor.hpp:371-377 | the same from one uninterrupted unsubscribe between the two lookups of the event thread, with no handler called |
| WitnessRuns.ReplacedHandlerIsServed | TransportInfra/Reactor/Reactor.hpp:290-294 | a handler subscribed in the place of the one found is given the events, in a tolerated run |
| SerialReactor.EveryRunFromEmpty | TransportInfra/Reactor/Reactor.hpp:195-219 | over every run of uninterrupted calls and notifications: keys agree with hashes, what epoll watches is mapped, every registered context is mapped, unsubscribing any identifier is defined; and while no descriptor is closed the epoll set is the domain of the handle map |
| SerialReactor.RunKeepsInvariant | TransportInfra/Reactor/Reactor.hpp:266-286 | the same from any state that satisfies the invariant |
| SerialReactor.StepKeepsEpollMapped | TransportInfra/Reactor/EpollDemultiplexer.h:255-271 | registering and unregistering keep the epoll set equal to the domain of the handle map |
| SerialReactor.UnsubscribeKeepsInvariant | UtilitiesInfra/shared_lookup_table.hpp:347-352 | unsubscribe keeps the invariant, and always meets the vector table's need that the key is present |
| SerialReactor.KeySearchEndsAtOnce | TransportInfra/Reactor/EpollDemultiplexer.h:90-97 | the key of a descriptor is its hash, cached or not, and an entry found under it is that descriptor's own |
| SerialReactor.SubscribeSucceedsExactlyWhen | TransportInfra/Reactor/Reactor.hpp:185-193 | subscribe answers an identifier if and only if the descriptor is not 0, has no entry left after the cleanup, is not watched, and the kernel takes it; the identifier then leads to a registered context and an idle handler |
| SerialReactor.UnsubscribeUndoesSubscribe | TransportInfra/Reactor/Reactor.hpp:195-219 | unsubscribing what was just subscribed leaves the tables that cleanup alone would have left |
| SerialReactor.OrphanedExactlyWhen | TransportInfra/Reactor/Reactor.hpp:321-331 | a call leaves a descriptor watched without an entry if and only if it was watched with an entry, and the call's cleanup finds the entry stale with an idle handler, or it unsubscribes one not marked registered |
| SerialReactor.RunOrphansExactlyWhen | TransportInfra/Reactor/Reactor.hpp:195-331 | over every run that does not close it, a descriptor ends so if and only if some call of the run was such a call |
| SerialReactor.ExpiringOrphans | TransportInfra/Reactor/Reactor.hpp:407-411 | a handler that answers INVALID_REFERENCE makes the next cleanup such a call |
| SerialReactor.ExpiredIsOrphaned | TransportInfra/Reactor/Reactor.hpp:324-329 | from an empty reactor: subscribe once, answer INVALID_REFERENCE, clean up, and the descriptor is watched without an entry |
| SerialReactor.ResubscribingOrphans | TransportInfra/Reactor/Reactor.hpp:266-274 | subscribing a live descriptor again answers the null identifier and makes the next cleanup such a call |
| SerialReactor.OrphanStaysLost | TransportInfra/Reactor/Reactor.hpp:266-287 | while it stays open, such a descriptor can never be subscribed, unsubscribed or served again, whatever is called |
| ReactorTables.HashedKeyIsInjective | TransportInfra/Reactor/EpollDemultiplexer.h:289-292 | two descriptors have one key only if they are the same; a key is the descriptor modulo 2 to the 32; only descriptor 0 has the null identifier |
| ReactorTables.CleanupIsExact | TransportInfra/Reactor/Reactor.hpp:321-331 | cleanup removes exactly the subscribers that are expired or unregistered and own a handler not in progress, and exactly those handlers; a second cleanup removes nothing |
| ReactorTables.CleanupSparesTheLiving | TransportInfra/Reactor/Reactor.hpp:324-329 | a live subscription and a handler in progress both survive every cleanup |
| ReactorTables.UnsubscribeTakesExactly | TransportInfra/Reactor/Reactor.hpp:200-219 | beside what its cleanup removes, unsubscribe takes exactly the entry, its handler if not in progress, and the mapping and watching of its descriptor if registered |
| ReactorTables.DeliveryStopsExactlyWhen | TransportInfra/Reactor/Reactor.hpp:399-413 | a handler is given all the events due if none is answered INVALID_REFERENCE, and otherwise those up to the first so answered |
| UninterruptedCalls.SubscribeAlone | TransportInfra/Reactor/Reactor.hpp:185-193 | a subscribe whose sections are not interrupted reaches exactly the tables and the answer of the one-step model |
| UninterruptedCalls.UnsubscribeAlone | TransportInfra/Reactor/Reactor.hpp:195-219 | so does an unsubscribe, where the one-step model is defined |
| UninterruptedCalls.UnsubscribeAloneUndefined | UtilitiesInfra/shared_lookup_table.hpp:347-352 | where the one-step model is not defined, the same call comes to erase an end iterator |
| UninterruptedCalls.CleanupAlone | UtilitiesInfra/shared_lookup_table.hpp:61-79 | collecting keys with a predicate that erases handlers, then erasing the keys one by one, amounts to the one-step cleanup |
| UninterruptedCalls.PickingKeepsSelection | TransportInfra/Reactor/Reactor.hpp:324-329 | erasing handlers while collecting does not change which entries will be collected |
| UninterruptedNotifications.NotifyAlone | TransportInfra/Reactor/Reactor.hpp:360-415 | a turn of the event thread whose sections are not interrupted takes the head of the queue, leaves the tables of the one-step notification, records exactly its calls of the handler with the handler's answers, and changes nothing else |
| UninterruptedNotifications.DispatchAlone | TransportInfra/Reactor/Reactor.hpp:399-413 | the dispatch loop not interrupted: the handler found is called for the events due up to the first INVALID_REFERENCE, and exactly then the copy is written back expired |
| Reactor.SharedQueue.WaitAndPop | UtilitiesInfra/shared_queue.hpp:92-98 | the oldest value is taken and the rest kept in order |
| Reactor.SharedQueue.TryPop | UtilitiesInfra/shared_queue.hpp:64-75 | the same for a queue that may be empty |
| Reactor.EpollDemultiplexer.GetKeyFor | TransportInfra/Reactor/EpollDemultiplexer.h:90-97 | the cached key if the handle is mapped, the hash otherwise |
| Reactor.EpollDemultiplexer.RegisterListener | TransportInfra/Reactor/EpollDemultiplexer.h:239-260 | the descriptor is watched and mapped together, or neither |
| Reactor.EpollDemultiplexer.UnregisterListener | TransportInfra/Reactor/EpollDemultiplexer.h:262-271 | the descriptor is unmapped and no longer watched; needs the mapping to be there, or no mapping at all |
| Reactor.Reactor.CleanupExpired | TransportInfra/Reactor/Reactor.hpp:321-331 | the collecting loop with its erasing predicate and the erasing loop leave the tables of the one-step cleanup |
| Reactor.Reactor.Subscribe | TransportInfra/Reactor/Reactor.hpp:185-193 | the tables and the answer of the one-step subscribe, and the invariant |
| Reactor.Reactor.SubscribeImpl | TransportInfra/Reactor/Reactor.hpp:233-287 | the same without the handler: the key search, the refusal of a dispatched handler, the overwriting of a found entry, registration and roll-back |
| Reactor.Reactor.SearchKey | TransportInfra/Reactor/Reactor.hpp:236-254 | the key-search loop ends with the hash of the descriptor, and finds an entry if and only if there is one under it |
| Reactor.Reactor.Unsubscribe | TransportInfra/Reactor/Reactor.hpp:195-219 | the tables and the answer of the one-step unsubscribe, and the invariant |
| Reactor.Reactor.RemoveHandler | TransportInfra/Reactor/Reactor.hpp:296-308 | erases the handler if and only if it is there and not in progress |
| Reactor.Reactor.ProcessNext | TransportInfra/Reactor/Reactor.hpp:350-426 | one turn of the event thread consumes one notification and leaves the tables and the handler calls of the one-step model; then, if it is due and the notification is not the last one, nothing that a cleanup removes is left - unless the turn found a live entry without a handler; in that case, and when it is not due, no entry and no handler is removed |
| Reactor.NotifyKeepsKeys | TransportInfra/Reactor/Reactor.hpp:368-415 | a notification adds and removes no entry and changes no handler, mapping or watched descriptor |
| Reactor.Reactor.HandleNotification | TransportInfra/Reactor/Reactor.hpp:368-420 | the turn without queue and cleanup: the tables and calls of the one-step model; it ends early exactly for a live entry without a handler |
| Reactor.Reactor.DispatchAll | TransportInfra/Reactor/Reactor.hpp:399-413 | the dispatch loop calls the handler for the non-null events up to the first INVALID_REFERENCE, and marks the entry expired exactly then |
| Events.GetEventsMask | TransportInfra/Reactor/EpollDemultiplexer.cpp:60-77 | a bit is set if and only if it is the kernel's bit (0, 1, 2, 3, 4, 13) of a listed event (IN, PRIO_IN, OUT, ERR, HUP, SHUTDOWN) |
| Events.GetEventsFromMask | TransportInfra/Reactor/EpollDemultiplexer.cpp:79-101 | slot k of the array holds the k-th of these events if its bit is in the mask, and null otherwise |
| Events.EachReportedEventOnce | TransportInfra/Reactor/EpollDemultiplexer.cpp:79-101 | every event a mask reports is in the array exactly once, and no other is |
| Events.NonNullCounts | TransportInfra/Reactor/Reactor.hpp:399-400 | skipping the null slots loses no event and repeats none |
| Events.NonNullKeepsOrder | TransportInfra/Reactor/Reactor.hpp:399-400 | and keeps the others in their order |
| Events.BitsDecideSlots | TransportInfra/Reactor/EpollDemultiplexer.cpp:79-101 | the same of the function that stands for the array in the theorems |
| VectorTable.VectorTable.AddOrUpdate | UtilitiesInfra/shared_lookup_table.hpp:324-336 | the vector stays strictly sorted and stands for the map with the key set to the value |
| VectorTable.VectorTable.ValueFor | UtilitiesInfra/shared_lookup_table.hpp:338-345 | answers the map's value, or nothing |
| VectorTable.VectorTable.Remove | UtilitiesInfra/shared_lookup_table.hpp:347-352 | for a present key or an empty table: the vector stays strictly sorted and stands for the map without the key |
| VectorTable.EraseHasAPositionExactlyWhen | UtilitiesInfra/shared_lookup_table.hpp:350-351 | the position remove_if answers is not the end if and only if the key is in the map |
| VectorTable.VectorTable.Clear | UtilitiesInfra/shared_lookup_table.hpp:389-392 | the map is empty |
| VectorTable.VectorTable.KeysSnapshot | UtilitiesInfra/shared_lookup_table.hpp:441-449 | the keys of the map, each once, increasing |
| VectorTable.VectorTable.SubsectionFor | UtilitiesInfra/shared_lookup_table.hpp:369-380 | a new sorted table with exactly the mappings of the listed keys that are present |
| VectorTable.VectorTable.Sort | UtilitiesInfra/shared_lookup_table.hpp:317-320 | sorting distinct keys gives a strictly sorted vector for the same map |
| VectorTable.VectorTable.Position | UtilitiesInfra/shared_lookup_table.hpp:307-315 | the first position with the key, or the end |
| VectorTable.RearrangingKeepsContents | UtilitiesInfra/shared_lookup_table.hpp:317-320 | rearranging a vector without repeated keys changes neither their being distinct nor the map it stands for |
| VectorTable.SortedVectorIsCanonical | UtilitiesInfra/shared_lookup_table.hpp:317-336 | two strictly sorted vectors that stand for one map are the same vector |
| StdAlgorithms.RemoveIf | UtilitiesInfra/shared_lookup_table.hpp:350-351 | std::remove_if as a loop: the kept elements, in order, come first |
| StdAlgorithms.SortByKey | UtilitiesInfra/shared_lookup_table.hpp:317-320 | std::sort as a loop: a permutation, ordered by key |
| ConfigurationReader.FillTable | Configuration/ConfigurationReader.cpp:51-117 | the cursor loop terminates, each turn strictly advancing, and returns what the section-by-section reading of the content says |
| ConfigurationReader.FillSection | Configuration/ConfigurationReader.cpp:87-113 | the inner loop appends the pairs of the section one by one, in order, and touches no other section |
| ConfigurationReader.StoredPairsAreWholeLines | Configuration/ConfigurationReader.cpp:89-112 | for any content, every stored pair is one whole line of it: key, =, value, bounded by newlines or the content's ends, with no newline inside |
| ConfigurationReader.ParsingUndoesPrinting | Configuration/ConfigurationReader.cpp:51-117 | whatever text without a [ stands above it, a document of clean names, keys and values, with text behind the names and lines without = and [ among the pairs, printed and parsed, comes back if and only if no section but the last is without a pair; otherwise the count runs over a reversed range |
| ConfigurationReader.LeadingTextExactlyWhen | Configuration/ConfigurationReader.cpp:60-62 | text without a [ in front changes the parse of no content if and only if it is empty or ends with a newline |
| ConfigurationReader.NamelessKeysDiffer | Configuration/ConfigurationReader.cpp:91-100 | text in front that does not end its line becomes part of the key of a pair on the line of the [ |
| ConfigurationReader.FinalNewlineMakesNoDifference | Configuration/ConfigurationReader.cpp:89-103 | a newline at the very end of a content changes nothing |
| ConfigurationReader.EmbeddedParsesAlike | Configuration/ConfigurationReader.cpp:60-113 | a content parses alike wherever it stands behind whole lines without a [, with or without a last newline |
| ConfigurationReader.TableHoldsTheSections | Configuration/ConfigurationReader.cpp:80-111 | with distinct names the table has each section with its pairs in order, and nothing else |
| ConfigurationReader.Search | Configuration/ConfigurationReader.cpp:61-75 | the first position of the character from a position on, and the position behind it |
| ConfigurationReader.SearchBack | Configuration/ConfigurationReader.cpp:91-94 | the position behind the last newline before one |
| ConfigurationBook.CollectionFor | Configuration/ConfigurationBook.hpp:22-50 | whenever its loop ends: exactly the converted pieces are appended, in order; the answer says whether there was one |
| ConfigurationBook.ConvertingIsPiecewise | Configuration/ConfigurationBook.hpp:38-46 | the elements of pieces one behind the other are those of the first ones and then those of the others |
| ConfigurationBook.ConvertingOne | Configuration/ConfigurationBook.hpp:38-46 | a piece gives its element if it converts, and none otherwise |
| ConfigurationBook.LoopEndsExactlyWhen | Configuration/ConfigurationBook.hpp:32-47 | the loop ends if and only if the separator is not empty or the value is |
| ConfigurationBook.SplittingLosesNothing | Configuration/ConfigurationBook.hpp:32-47 | for every string: no piece holds the separator, and the pieces joined give the string back, up to one separator at its very end |
| ConfigurationBook.SplittingUndoesJoining | Configuration/ConfigurationBook.hpp:32-47 | splitting joined pieces gives them back if and only if each but the last meets no separator before its own end, and the last holds none and is not empty |
| ConfigurationBook.JoiningTheSplit | Configuration/ConfigurationBook.hpp:33-47 | the same from any position on, with the exact case of a separator that ends the string |
| LinuxIOUtilities.Read | UtilitiesInfra/LinuxUtils/LinuxIOUtilities.cpp:307-325 | everything the answers carry is appended, in order and without loss, also when the call answers -1; it asks again after EINTR or a full buffer only |
| LinuxIOUtilities.BytesAppend | UtilitiesInfra/LinuxUtils/LinuxIOUtilities.cpp:318-319 | the bytes of answers one behind the other are theirs one behind the other |
| LinuxIOUtilities.BytesOfOne | UtilitiesInfra/LinuxUtils/LinuxIOUtilities.cpp:318-319 | an answer that is neither an interruption nor an error carries its own bytes, any other none |
| LinuxIOUtilities.ReadEndsWhere | UtilitiesInfra/LinuxUtils/LinuxIOUtilities.cpp:307-324 | the call ends with the first answer that is neither an interruption nor a full buffer of 4096 bytes, and fails if and only if that is an error or there is none |
| LinuxIOUtilities.StreamEndsWhere | UtilitiesInfra/LinuxUtils/LinuxIOUtilities.cpp:328-361 | the stream a line is read from is what the answers carry before the first error or empty answer |
| LinuxIOUtilities.ReachedIsGot | UtilitiesInfra/LinuxUtils/LinuxIOUtilities.hpp:75-91 | with room enough recv takes exactly what a read takes |
| LinuxIOUtilities.ReadsInARow | UtilitiesInfra/LinuxUtils/LinuxIOUtilities.cpp:309-325 | two reads in a row carry the bytes of all the answers they took |
| LinuxIOUtilities.ReadLine | UtilitiesInfra/LinuxUtils/LinuxIOUtilities.cpp:328-361 | appends exactly the bytes before the first newline of the stream, however it is cut into answers; all received bytes if none comes before the end or an error |
| LinuxIOUtilities.FirstLineAppend | UtilitiesInfra/LinuxUtils/LinuxIOUtilities.cpp:347-356 | whether the part seen so far holds a newline decides whether what follows matters |
| LinuxIOUtilities.Recv | UtilitiesInfra/LinuxUtils/LinuxIOUtilities.hpp:44-95 | without WAITALL: the result is the longest prefix of the stream that is not longer than asked for, and a prefix of what the kernel handed over |
| LinuxIOUtilities.NeverLosesExactlyWhen | UtilitiesInfra/LinuxUtils/LinuxIOUtilities.hpp:75-91 | whatever the kernel answers, a request loses no byte if and only if it is smaller than the buffer |
| LinuxIOUtilities.FullRequestLoses | UtilitiesInfra/LinuxUtils/LinuxIOUtilities.hpp:75-91 | a request for exactly one buffer drops what follows a full answer |
| LinuxIOUtilities.Write | UtilitiesInfra/LinuxUtils/LinuxIOUtilities.cpp:415-435 | the kernel gets exactly the first bytes of the data, in order and none twice, as many as it is ready to take before an error; the answer says how many |
| LinuxIOUtilities.ReadyEndsWhere | UtilitiesInfra/LinuxUtils/LinuxIOUtilities.cpp:415-435 | what the kernel is ready to take is the sum of its counts before the first error, interruptions aside |
| NamedPipeServer.Server.Store | TransportInfra/Policies/DispatcherPolicy.hpp:68-79 | the first-message buffer takes data of the first key it meets, and drops data of another |
| NamedPipeServer.Server.ProcessClientInput | TransportInfra/Policies/DispatcherPolicy.hpp:145-160 | data goes to the callback if there is one, to the first-message buffer otherwise |
| NamedPipeServer.Server.RegisterClientInputCallback | TransportInfra/Policies/DispatcherPolicy.hpp:113-125 | only a first callback is given the first-message buffer, which is then cleared |
| NamedPipeServer.Server.ProcessInputEvent | TransportInfra/Policies/ServerCallbackPolicy.hpp:110-128 | reads, and hands over everything retained once a read succeeds |
| NamedPipeServer.Server.AcceptClient | TransportInfra/Policies/ServerCallbackPolicy.hpp:70-77 | renews the key and reads |
| NamedPipeServer.StepConserves | TransportInfra/Policies/DispatcherPolicy.hpp:113-160 | a step keeps delivered, first-message and retained bytes together equal to the bytes read, in order, if and only if it is not an empty callback registered over waiting data, nor data of another key without a callback |
| NamedPipeServer.RunConserves | TransportInfra/Policies/DispatcherPolicy.hpp:62-160 | over every run: nothing is lost, duplicated or reordered if and only if no step of it is one of those |
| NamedPipeServer.InputIsConserved | TransportInfra/Policies/ServerCallbackPolicy.hpp:110-128 | over every run on one descriptor with callbacks that are not empty: delivered, waiting and retained bytes are exactly the bytes read, and came under the descriptor's key |
| NamedPipeServer.SuccessfulReadDeliversAll | TransportInfra/Policies/ServerCallbackPolicy.hpp:120-125 | with a callback set, a successful read hands over all that has ever been read |
| NamedPipeServer.OrdinaryRun | TransportInfra/Policies/ServerCallbackPolicy.hpp:155-163 | such a run never loses anything, and delivers under the descriptor's key |
| NamedPipeServer.StepDelivers | TransportInfra/Policies/DispatcherPolicy.hpp:113-160 | the exact calls each step makes: of the callback registered last, with key and text, for a first registration and for a read that gets something, and no others |
| NamedPipeServer.LastRegisteredIsCalled | TransportInfra/Policies/DispatcherPolicy.hpp:113-125 | over every run the callback is the one registered last: a second replaces the first |
| NamedPipeServer.StepKey | TransportInfra/Policies/ServerCallbackPolicy.hpp:70-77 | the key is that of the client accepted last, or of the first input before any |
| ConnectionInitialiser.ConnectorFailsOn | TransportInfra/Connector.hpp:98-112 | the connector fails an attempt on IN, ERR, HUP and SHUTDOWN, and completes it on OUT only |
| ConnectionInitialiser.AcceptorDecidesOn | TransportInfra/Acceptor.hpp:64-77 | the acceptor completes an attempt on IN and fails it on ERR only |
| ConnectionInitialiser.StoredExactlyWhen | TransportInfra/EndpointConnectionInitialiserBase.hpp:83-105 | a setup stores its own endpoint with its own callback under the identifier, watched, if and only if it gets as far as an identifier that is not null; then only an endpoint stored there before is destroyed, otherwise only the new one; nothing fires and no other entry changes |
| ConnectionInitialiser.AttemptCompletes | TransportInfra/EndpointConnectionInitialiserBase.hpp:45-128 | an attempt set up, left alone for however long a run, and decided: exactly its own callback fires, with its own endpoint after success and null after failure, and the entry is gone |
| ConnectionInitialiser.PipeCompletesAtOnce | TransportInfra/Connector.hpp:60-79 | a named pipe's callback has fired when its setup is over, with its endpoint or with null |
| ConnectionInitialiser.AnswersExactlyWhen | TransportInfra/EndpointConnectionInitialiserBase.hpp:45-61 | the exact answers to each event, and that an unknown or undecided one changes nothing |
| ConnectionInitialiser.EntryStays | TransportInfra/EndpointConnectionInitialiserBase.hpp:45-61 | over every run of steps for others and undecided events an entry stays as it is |
| ConnectionInitialiser.Initialiser.HandleEvent | TransportInfra/EndpointConnectionInitialiserBase.hpp:45-61 | an unknown identifier is answered INVALID_REFERENCE; otherwise the event decides between success, failure and nothing |
| ConnectionInitialiser.Initialiser.HandleConnectionSuccess | TransportInfra/EndpointConnectionInitialiserBase.hpp:107-114 | stops watching; completes the entry unless an accept failed |
| ConnectionInitialiser.Initialiser.HandleConnectionFailure | TransportInfra/EndpointConnectionInitialiserBase.hpp:116-121 | stops watching, destroys the endpoint and completes the entry with null |
| ConnectionInitialiser.Initialiser.CompleteClientService | TransportInfra/EndpointConnectionInitialiserBase.hpp:123-128 | calls the entry's callback with its endpoint and erases the entry |
| ConnectionInitialiser.Initialiser.Subscribe | TransportInfra/EndpointConnectionInitialiserBase.hpp:83-105 | stores the endpoint under the identifier, destroying one stored there before; a refused endpoint is destroyed; StoredExactlyWhen gives the exact state |
| ConnectionInitialiser.Initialiser.SetupEndpoint | TransportInfra/Connector.hpp:46-58 | an attempt that does not get as far as subscribing destroys its endpoint and calls nobody |
| ConnectionInitialiser.Initialiser.SetupPipeEndpoint | TransportInfra/Connector.hpp:60-79 | a named pipe completes at once: with its endpoint, or with null after destroying it |
| ConnectionInitialiser.EndpointsAreConserved | TransportInfra/EndpointConnectionInitialiserBase.hpp:45-128 | over every run every endpoint made is in the table, handed over or destroyed, in one of them only and once; every attempt calls back at most once and is then gone; the callback is its own and gets its own endpoint or null |
| ConnectionInitialiser.StepKeepsInvariant | TransportInfra/EndpointConnectionInitialiserBase.hpp:83-128 | each setup and each event keeps all of that |
| ConnectionInitialiser.DecidedExactlyWhen | TransportInfra/Acceptor.hpp:64-102 | an entry completes and leaves the table if and only if the event is its failure, or its success with an accept that does not fail |
| ConnectionInitialiser.OnlyOverwritingSilences | TransportInfra/EndpointConnectionInitialiserBase.hpp:100 | an attempt leaves the table without a callback only when a later setup is answered the same identifier |
| ConnectionInitialiser.TableStaysWatchedExactlyWhen | TransportInfra/Acceptor.hpp:91-102 | a step keeps the table exactly what is watched if and only if it is not an acceptor's IN event whose accept fails |
| ConnectionInitialiser.TableIsWatched | TransportInfra/EndpointConnectionInitialiserBase.hpp:83-128 | over every run of connector or acceptor without such a step the table is exactly what is watched |
| ConnectionInitialiser.StrandedStays | TransportInfra/EndpointConnectionInitialiserBase.hpp:45-61 | a stranded entry stays so if and only if the step neither sets its identifier up again nor decides it |
| ConnectionInitialiser.ConnectorTableIsWatched | TransportInfra/Connector.hpp:115-133 | a connector's table is exactly what the demultiplexer watches for it, over every run |
| ClientEndpoint.TransportEndpoint.SetState | TransportInfra/TransportEndpoint.hpp:239-248 | becoming DISCONNECTED from another state reports a disconnection; no other change does |
| ClientEndpoint.TransportEndpoint.ConnectTo | TransportInfra/Policies/ClientCallbackPolicy.hpp:40-50 | an accepted non-blocking connect sets the flag and CONNECTING |
| ClientEndpoint.TransportEndpoint.DisconnectDevice | TransportInfra/Policies/ClientCallbackPolicy.hpp:52-60 | DISCONNECTED once the device has been disconnected |
| ClientEndpoint.TransportEndpoint.ConnectionDone | TransportInfra/Policies/ClientCallbackPolicy.hpp:62-70 | the flag is turned into CONNECTED |
| ClientEndpoint.TransportEndpoint.ProcessErrorEvent | TransportInfra/Policies/ClientCallbackPolicy.hpp:126-133 | tears down an established connection only; a device that does not disconnect leaves DISCONNECTING |
| ClientEndpoint.TransportEndpoint.ProcessInputEvent | TransportInfra/Policies/DispatcherPolicy.hpp:218-240 | a failed read keeps its bytes and counts as an error; a successful one hands all bytes over |
| ClientEndpoint.TransportEndpoint.ProcessShutdown | TransportInfra/TransportEndpoint.hpp:207-212 | reports, and reports again on becoming DISCONNECTED |
| ClientEndpoint.TransportEndpoint.HandleEvent | TransportInfra/Policies/EventHandlingPolicy.hpp:24-51 | another identifier is answered INVALID_REFERENCE and changes nothing; the five events go to their policies |
| ClientEndpoint.TransportEndpoint.ListenerSubscribe | TransportInfra/Policies/EventHandlingPolicy.hpp:55-75 | keeps the identifier the listener answers, and refuses without a handle |
| ClientEndpoint.TransportEndpoint.ListenerUnsubscribe | TransportInfra/Policies/EventHandlingPolicy.hpp:77-86 | forgets the identifier if the listener accepts |
| ClientEndpoint.EveryRun | TransportInfra/TransportEndpoint.hpp:239-248 | over every run of an endpoint that does not start CONNECTING: disconnections reported are the entries into DISCONNECTED plus the SHUTDOWN events that reach it; entries into CONNECTED do not exceed accepted non-blocking connects; CONNECTING implies the flag |
| ClientEndpoint.DisconnectionsAreReported | TransportInfra/TransportEndpoint.hpp:207-212 | the first of these from any state |
| ClientEndpoint.ConnectionsNeedConnects | TransportInfra/Policies/ClientCallbackPolicy.hpp:40-70 | the second from any state, with the flag counted as a connect still to be used |
| ClientEndpoint.ConnectingIsInProgress | TransportInfra/Policies/ClientCallbackPolicy.hpp:45-48 | the third from any state that satisfies it |
| ClientEndpoint.BecomesConnectedExactlyWhen | TransportInfra/Policies/ClientCallbackPolicy.hpp:103-118 | an endpoint becomes CONNECTED if and only if it is told so with the flag set, or OUT arrives while CONNECTING |
| ClientEndpoint.StateAfter | TransportInfra/TransportEndpoint.hpp:239-248 | the state after any step: CONNECTING after an accepted non-blocking connect; CONNECTED when told so; DISCONNECTED after an accepted disconnect, SHUTDOWN under the own identifier, or an error or failed read while CONNECTED whose device closes; DISCONNECTING if it does not close; unchanged otherwise |
| ClientEndpoint.BecomesDisconnectedExactlyWhen | TransportInfra/Policies/ClientCallbackPolicy.hpp:126-133 | the exact steps that make the endpoint DISCONNECTED: an accepted disconnect, SHUTDOWN under the own identifier, or ERR or a failed read while CONNECTED with a device that closes |
| ClientEndpoint.BecomesDisconnectingExactlyWhen | TransportInfra/Policies/ClientCallbackPolicy.hpp:126-133 | the same for DISCONNECTING: ERR or a failed read while CONNECTED with a device that does not close |
| ClientEndpoint.BecomesConnectingExactlyWhen | TransportInfra/Policies/ClientCallbackPolicy.hpp:40-50 | the same for CONNECTING: an accepted non-blocking connect |
| ClientEndpoint.ReportsGoToTheRegistered | TransportInfra/TransportEndpoint.hpp:207-212 | every report a step makes goes to the disconnection callback registered at that moment, and earlier ones stay |
| ClientEndpoint.AnswersExactlyWhen | TransportInfra/Policies/EventHandlingPolicy.hpp:24-51 | the exact answer to every event, and that an event for another identifier or of no use changes nothing |
| ClientEndpoint.SubscriptionChangesExactlyWhen | TransportInfra/Policies/EventHandlingPolicy.hpp:55-89 | the identifier changes only by the listener's answers, and one is only given where there is a handle |
| ClientEndpoint.HandedOverExactlyWhen | TransportInfra/Policies/DispatcherPolicy.hpp:218-240 | a read that succeeds hands over, in one piece, all read since the last such; one that fails keeps it |
| ClientEndpoint.FlagSetExactlyWhen | TransportInfra/Policies/ClientCallbackPolicy.hpp:40-70 | the flag is set after a step if and only if the step is an accepted non-blocking connect, or it was set and the step is none that makes CONNECTED |
| ClientEndpoint.BrokenOffAttemptCanConnect | TransportInfra/Policies/ClientCallbackPolicy.hpp:52-70 | a broken-off attempt leaves the flag set, so being told afterwards makes a disconnected endpoint CONNECTED |
| ClientEndpoint.InputIsConserved | TransportInfra/Policies/DispatcherPolicy.hpp:218-240 | over every run: bytes handed over and bytes kept after failed reads are the bytes read, in order, if and only if no read succeeded without a callback while there was text |
| NetworkAddress.NetworkAddress.FromString | TransportInfra/Devices/Sockets/InetSocketAddress.hpp:51-81 | accepts what has a meaning and stores it; on every refusal the port is 0 and the host cleared |
| NetworkAddress.NetworkAddress.ToString | TransportInfra/Devices/Sockets/InetSocketAddress.hpp:83-96 | the host text, a colon and the port in decimal |
| NetworkAddress.ParsingUndoesPrinting | TransportInfra/Devices/Sockets/InetSocketAddress.hpp:51-96 | for every host text, colons or not, and every 16-bit port, host:port is accepted and gives both back |
| NetworkAddress.PrintingUndoesParsing | TransportInfra/Devices/Sockets/InetSocketAddress.hpp:51-96 | an accepted text is printed back unchanged if and only if its port is written without leading zeros and with nothing behind it |
| NetworkAddress.AcceptedExactlyWhen | TransportInfra/Devices/Sockets/InetSocketAddress.hpp:57-69 | accepted if and only if digits worth at most 65535 follow the last colon, whatever follows them |
| NetworkAddress.MeaningOfText | TransportInfra/Devices/Sockets/InetSocketAddress.hpp:51-81 | what every text means: all before the last colon is the host, the digits behind it the port; without a colon, without digits, above 65535 or of an unknown family it is refused |
| NetworkAddress.ZeroInFront | TransportInfra/Devices/Sockets/InetSocketAddress.hpp:62-69 | a zero in front of the port changes nothing |
| NetworkAddress.PortIsShort | TransportInfra/Devices/Sockets/InetSocketAddress.hpp:85-91 | a port takes at most five characters, so printing never overruns its buffer |
| NetworkAddress.FindLast | TransportInfra/Devices/Sockets/InetSocketAddress.hpp:57 | the last separator, or none |
| Paths.GetDirectoryAndFileName | UtilitiesInfra/LinuxUtils/LinuxIOUtilities.cpp:47-71 | collecting the segments equals one split at the last separator, for every path |
| Paths.JoinPath | UtilitiesInfra/LinuxUtils/LinuxIOUtilities.cpp:73-82 | directory and file name with one separator between, or the directory alone if one of them is empty |
| Paths.PartsOfAPath | UtilitiesInfra/LinuxUtils/LinuxIOUtilities.cpp:47-71 | a path without a separator is all file name; otherwise what stands before and behind the last separator are directory and file name |
| Paths.JoiningUndoesSplitting | UtilitiesInfra/LinuxUtils/LinuxIOUtilities.cpp:47-82 | joining the parts of a path gives it back if and only if it is empty, or both parts are not |
| Paths.SplittingUndoesJoining | UtilitiesInfra/LinuxUtils/LinuxIOUtilities.cpp:47-82 | splitting a joined path gives both parts back if and only if both are empty, or both are not and the file name has no separator; with one part empty the join is the directory alone |
| ObservableStatePublisher.Publisher.AddObserver | UtilitiesInfra/ObservableStatePublisher.hpp:36-41 | the next identifier of the shared counter, at the end of the list, which stays strictly increasing |
| ObservableStatePublisher.Publisher.RemoveObserver | UtilitiesInfra/ObservableStatePublisher.hpp:43-51 | one erase after remove_if removes exactly the named observer and keeps the order; the answer says whether it was there |
| ObservableStatePublisher.Publisher.Notify | UtilitiesInfra/ObservableStatePublisher.hpp:71-79 | every observer present at the snapshot is told the state once, in registration order |
| ObservableStatePublisher.RunKeepsInvariant | UtilitiesInfra/ObservableStatePublisher.hpp:54-57 | over every run, in any number of publishers, identifiers are strictly increasing and name one observer |
| ObservableStatePublisher.RemovedStaysRemoved | UtilitiesInfra/ObservableStatePublisher.hpp:43-51 | an identifier given out and removed never comes back |
| ObservableStatePublisher.RemovingUndoesAdding | UtilitiesInfra/ObservableStatePublisher.hpp:36-51 | removing the observer just added gives the list back |

## Left out

- ReactorTables.HashedKeyIsInjective: the hash is libstdc++'s identity on the descriptor read as an unsigned 32-bit number; another library's hash, which could collide and make the key search loop, is not modelled.
- Reactor.Reactor.ProcessNext: the handler makes no call back into the reactor here; in the interleaved model such a call is one more calling thread, and `TolerantReactor` covers it.
- Reactor.EpollDemultiplexer.UnregisterListener: erasing without the key is ruled out by a precondition here; when it holds is the subject of `SerialReactor` and `TolerantReactor`.
- ConnectionInitialiser.Initialiser.HandleEvent: a completion callback that calls back into the initialiser is not modelled, nor one that is an empty function.
- ClientEndpoint.TransportEndpoint.HandleEvent: an endpoint destroyed by its own disconnection callback is not modelled.
- LinuxIOUtilities.Recv: only without WAITALL, and for answers that fit the buffer.
- LinuxIOUtilities.ReadLine: what the last answer holds behind its newline is thrown away, and no contract covers it.
- The event thread's own cleanup every 300 seconds is, in the interleaved model, one more cleanup call among those of the other threads.
- The list of keys that `remove_if` shares between callers through a function-local static is one list per call: the shared one is a data race.
- The event thread reads the handlers table without the lock; each such read is one atomic step.
- The demultiplexer's lock joins the unmapping and the unwatching of a descriptor; the interleaved model lets other sections come between them, so it has more runs than the code. The runs shown use none of those.
- Lock order, memory order, blocking and waking of threads, thread start and join, signals, time-outs of epoll, logging.
- The order in which events of one notification are sorted: its comparison is no strict order, so the result is any permutation.
- `updateListener`: reached only when another thread removes the entry between the search and the write; the interleaved model has that step, the serial one shows that it is never taken.
- A descriptor closed while the reactor watches it: in the serial runs only.
- Whole-table copies and moves, moves of reactors and demultiplexers, the reactor's destructor and `clear`.
- Keys of lookup tables other than integers; `for_each`, `find_if`, `clone`.
- Reserved capacities, except that the parser's count over a reversed range is undefined; the searcher objects' own algorithm.
- Text conversion of a configuration value: `collectionFor` takes it as a parameter.
- `read` on seekable files, `readInBuffer`, `copyTo` and the other file utilities.
- What `inet_pton` makes of a host text beyond failing for an unknown family; socket address structures.
- Resource handlers, permissions, file status, device types, and the assembly of endpoints from policies by templates.
- The superseded first connector class and the superseded demultiplexer file.
- Overflow of identifiers and sizes: counters are unbounded.
