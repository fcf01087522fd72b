# Verified core of rueidis

A Dafny model of the parts of the rueidis Redis client in which correctness depends on
interleavings, on bookkeeping across many calls, or on byte-exact formats, and proofs of what those
parts promise. Verify with `dafny verify dfyconfig.toml`.

**Pipelining queues.** `Fifo` is the abstract pipeline: commands are put, written, taken and
answered in one order. `Ring` is the step relation of the ring buffer (ticket, fill, write, take,
rendezvous, finish) for any number of callers, several of them waiting on one slot and filling it
out of ticket order; it refines `Fifo`, and while a call is unanswered an advancing step exists.
`RingWakeups` adds the condition variables, with locks given back before the other side is woken: no
wake-up is lost, and after the last call the ring comes to rest with every call answered.
`RingStore` is the ring as an object with 32-bit counters and a mask, proved to take exactly those
steps. `FlowBuffer` does the same for the channel-based queue, whose tokens are conserved and
distinct.

**Reply matching.** `ReplyMatching` holds the read loop as a state machine, the server as a grammar
of legal transcripts (ordinary replies, subscription confirmations, the extra PONG after an
unsubscribe, pushes in between), and the proof that over every transcript each command gets its own
reply and the protocol panic is never reached.

**Client-side cache.** `LruSpec` is the cache as a value with every operation on it, `Lru` the two-level
map with a recency list that does exactly that, in place. `Coherence` runs the cache against a
tracking server over a FIFO connection. `CachedReads` merges hits, awaited entries and server
replies for multi-key reads and pipelines, and `CachedAnswers` runs such reads inside the coherent
system: every value was given by the server to that very pair, and is no older than the delay of the
connection at the lookup.

**Cluster batches.** `PickMulti` splits a batch into buckets, with the `Bitmap` that remembers replica
choices. `ClusterBatch` runs the rounds with interleaved workers. `Recovery` holds the replays after
an expired connection, `Rebucket` and `RebucketRun` the re-picking between rounds.

**Topology refresh.** `Refresh` and `RefreshTables` build and repair the slot tables, `RefreshCommit` is
the connection map under interference by redirects.

**Cache-aside lock.** `Aside` is the placeholder protocol between any number of clients and one Redis.
`AsideLate` adds connections on which commands are executed late, even after their call gave up.

**Codecs.** `Resp`, `RespWire`, `RespStream`, `RespWriter` and `RespIo` are the RESP reader, every legal
encoding of a value, the streaming copy, the command writer and the loops that run; the wire forms
are those of the RESP3 specification. `CacheCodec` is the binary form of cached replies.

**Subscriptions.** `PubSub` is the two-way index between channels and subscribers.

Nothing is executed here: map iteration order, server answers, user callbacks, delays and the
scheduler are arbitrary, and every statement holds for all of them.

## Where the code does not do what one would expect

- After a lifetime error, `doretry` marks "no transaction" by index 0. A transaction that begins the
  batch is therefore replayed from its middle. `RestartsAreHeads` gives the exact condition on the
  batch, `RestartIsHead` that on the expired result, `FrontTransactionIsCut` the input.
- With a read-node selector, a slot's replica list is the node list of its group itself. When two
  groups of a topology reply overlap, the repair of one can hide that the other needs repair, and a
  slot is committed to a connection that is about to be closed. `CommitSafeIffHarmless` gives the exact
  condition on the groups over all runs of the client, `CommitInstallsClosing` the run from the empty
  client for any groups that violate it, `OverlapInstallsClosing` two such groups.
- An unsubscribe error that `isUnsubReply` accepts, such as BUSY, is taken for the PONG that is still to
  come. `UnsubErrorInStep` says exactly which errors keep the read loop in step. After any other, the
  PONG answers the next command, or panics the loop when there is none (`UnsubErrorThenPong`);
  ordinary commands that follow each get the answer of the one before, and the last answer panics
  (`UnsubErrorShiftsTheRest`). `BusyUnsubscribePanics` is one such run from the start.
- Inside a transaction whose MULTI was not answered OK, a redirected command is not queued again
  (`TransactionQueuedOnce`), while EXEC is queued again whenever its own result asks for it, even after
  the whole transaction was (`MarkersQueuedAlone`). `ExecQueuedOnItsOwn` gives the inputs.
- A hit, and what a waiter is told, can be an answer that the server would give at no moment of the
  read. `AnswersCanBeOutdated` is a run for every write that changes an answer; `CurrentUnlessDoomed`
  says that an invalidation of the key was then on its way at the lookup.
- Cache-aside values can go stale when commands are executed late. They stay fresh if and only if calls
  that end between the loss of a connection and the dropping of the client id leave neither their lock
  nor their store on the way; a cleanup may be left (`NeverStaleIffInOrder`). The pipe drops the id
  before it fails the commands it had queued (pipe.go:522-545), but a command that a closing pipe
  refuses (pipe.go:1182) fails earlier. A call whose lock or store ran into its deadline and whose
  cleanup is refused can therefore end too early; `LateLockIsStale` and `LateStoreIsStale` are the runs.
- The nested loops that fill holes do not step over a hole they have just filled, so they rely on
  every decoded message having a type, which `NextTyped` proves of the reader.

## Model

| member | source | states |
|---|---|---|
| `Fifo.AnswersAreInOrder` | ring.go:59-151 | in every trace the abstract pipeline accepts, written requests are distinct and each reply number is that of the request written at that position |
| `Fifo.RepliesReachTheirRequests` | ring.go:59-151 | over every accepted trace reply k reaches the request written k-th, replies come in order, no request is answered twice |
| `Ring.RingRefinesFifo` | ring.go:59-151 | every run of the ring with any number of callers is a trace of the abstract pipeline; each command is received once, by the caller that filled its slot |
| `Ring.StepSim` | ring.go:59-151 | every single step of the ring is matched by the abstract pipeline |
| `Ring.OnlyOneListener` | ring.go:126-151 | when the reader sends, exactly the call whose reply it is listens on that channel |
| `Ring.WrittenWindow` | ring.go:93-142 | the slots with mark 2 are exactly those between read2 and read1, and hold the commands in the order the writer took them |
| `Ring.RunBalanced` | ring.go:59-142 | over every run the calls bound to a slot are as many as its issued tickets demand |
| `Ring.WriterWillBeServed` | ring.go:59-124 | whenever more tickets were issued than commands written, the writer's next slot is filled, in use, or has a ticketed call bound to fill it |
| `Ring.NoDeadlock` | ring.go:59-151 | while any call is unanswered some advancing step is enabled, sleeping aside |
| `Ring.NothingPending` | ring.go:59-151 | when all tickets are written and taken every call is done |
| `RingWakeups.EveryRunIsLive` | ring.go:59-151 | over every run with sleeping callers, a sleeping writer and wake-ups that come after the unlock: a call asleep on a free slot is about to be signalled or another awake call will fill the slot, and a writer asleep on a filled slot has a broadcast on its way |
| `RingWakeups.MoveKeeps` | ring.go:59-151 | every move of a caller, the writer and the reader keeps this, through c1, c2 and the slept flag |
| `RingWakeups.NeverStuck` | ring.go:59-151 | whoever sleeps, while a call is unanswered some move other than a new call is possible |
| `RingWakeups.MoveWorks` | ring.go:59-151 | every such move, sleeping and waking included, leaves strictly less to do |
| `RingWakeups.EveryCallIsAnswered` | ring.go:59-151 | after the last call came in, over every interleaving: the moves are bounded by the state then plus four for each look of the reader for a result that is not there, and when no move but such looks is left every call has its reply |
| `Ring.SlotIsMod` | ring.go:22-46 | the slot of a counter is the counter modulo the size |
| `Ring.SlotsDiffer` | ring.go:22-46 | counters closer than the size name different slots |
| `RingStore.WrappedCounterNamesSlot` | ring.go:22-66 | a 32-bit counter that wrapped around, masked by a power-of-two size, still names the slot of the unbounded counter |
| `RingStore.Store.constructor` | ring.go:22-46 | a new store is the initial ring of two to the given scale slots, for scales up to 32, the default scale for a non-positive one |
| `RingStore.Store.TakeTicket` | ring.go:59-66 | incrementing the write counter is the ticket step of the call |
| `RingStore.Store.TryFill` | ring.go:60-91 | a call whose slot is free fills it, any other waits; one command and a batch alike |
| `RingStore.Store.NextWriteCmd` | ring.go:93-107 | returns the oldest filled command and is the write step, or leaves everything as it was |
| `RingStore.Store.NextResultCh` | ring.go:126-142 | returns the oldest written command and holds its slot, or moves the counter back |
| `RingStore.Store.FinishResult` | ring.go:145-151 | releases the held slot and nothing else |
| `FlowBuffer.BufferRefinesFifo` | flowbuffer.go:23-100 | every run of the flow buffer is a trace of the same abstract pipeline |
| `FlowBuffer.StepGood` | flowbuffer.go:42-100 | every step keeps the tokens distinct and each in exactly one place |
| `FlowBuffer.SendsNeverBlock` | flowbuffer.go:42-100 | internal sends on w, r and f always find room |
| `FlowBuffer.OnlyOneListener` | flowbuffer.go:84-100 | a result channel is never held by two callers at once |
| `FlowBuffer.Channels3.constructor` | flowbuffer.go:23-40 | all tokens start in the free channel |
| `FlowBuffer.Channels3.NextWriteCmd` | flowbuffer.go:65-74 | takes the oldest queued token and passes it on to the reader, or nothing when none is queued |
| `FlowBuffer.Channels3.NextResultCh` | flowbuffer.go:84-93 | takes the oldest written token, which the reader then holds |
| `FlowBuffer.Channels3.FinishResult` | flowbuffer.go:95-100 | gives the held token back without blocking |
| `ReplyMatching.EveryCommandGetsItsReply` | pipe.go:598-771 | over every command list and every legal transcript the loop never panics and has handed out the server's answers to exactly the written commands, in order |
| `ReplyMatching.StepMatches` | pipe.go:630-770 | each message keeps the loop's state in step with the server's |
| `ReplyMatching.UnsubErrorInStep` | pipe.go:749-760 | for every batch, position and queue: when an unsubscribe fails, the loop stays in step with a server that still owes the PONG if and only if `isUnsubReply` rejects the error and its text is not QUEUED |
| `ReplyMatching.UnsubErrorThenPong` | pipe.go:663-770 | for every batch, position and queue: after an unsubscribe error that `isUnsubReply` accepts, the PONG panics the loop if and only if no command follows, and otherwise is handed to the next command as its reply |
| `ReplyMatching.UnsubErrorShiftsTheRest` | pipe.go:663-770 | after such an error, when ordinary commands follow, every one gets the answer of the one before it and the answer of the last one panics the loop |
| `ReplyMatching.TakenUntilPanic` | pipe.go:663-770 | ordinary commands take arriving answers one for one and the first answer beyond the last command panics |
| `ReplyMatching.BusyUnsubscribePanics` | pipe.go:32-42 | any single unsubscribe answered by a BUSY error and then the PONG ends in the panic, from the start of the loop |
| `ReplyMatching.PanicStays` | pipe.go:630-770 | a loop that panicked hands out nothing more |
| `ReplyMatching.ReadLoop.Fulfil` | pipe.go:762-769 | the in-place delivery of a reply is the delivery step of the state machine |
| `ReplyMatching.ReadLoop.MatchReply` | pipe.go:666-769 | the in-place matching of a reply or push is the matching step |
| `ReplyMatching.ReadLoop.OnMessage` | pipe.go:630-770 | one iteration of the loop is one turn of the state machine |
| `ReplyMatching.BackgroundRead` | pipe.go:598-771 | the whole loop computes the run of the state machine |
| `LruSpec.EvictsShortestPrefix` | lru.go:240-252 | eviction removes the completed entries of the shortest prefix in list order that brings the size down to max; pending ones and the rest stay |
| `LruSpec.EvictReachesMax` | lru.go:240-252 | after eviction the size is at most max |
| `LruSpec.EvictIsDrop` | lru.go:240-252 | the eviction loop drops exactly the evicted pairs and accounts for their sizes |
| `LruSpec.EvictedAreDone` | lru.go:240-252 | only completed entries are evicted |
| `LruSpec.ApplyInv` | lru.go:73-342 | every operation keeps: one entry per pair, size equal to the sum over completed entries and at most max, each unsettled channel pending in the list |
| `LruSpec.UpdateInv` | lru.go:221-260 | an update keeps the invariant |
| `LruSpec.CloseInv` | lru.go:327-342 | closing settles every pending channel once and empties the list |
| `LruSpec.EveryRunKeepsInv` | lru.go:73-342 | the invariant over every run, and what a closed channel reported never changes, so each is closed once |
| `LruSpec.FlightIsAcquire` | lru.go:73-130 | a flight that finds nothing live acquires the pair like the write-lock part alone |
| `LruSpec.PeekThenTouch` | lru.go:80-97 | a hit that refreshes its recency is the look under the read lock and the move under the write lock, which as a step of its own may come any time later and finds the element gone or moves it |
| `LruSpec.FlightsIsFlightEach` | lru.go:132-219 | an uninterrupted batch lookup classifies every index as successive single lookups would, duplicates and expired entries included |
| `Lru.Lru.constructor` | lru.go:65-71 | a new store is the empty cache |
| `Lru.Lru.Get` | lru.go:80-86 | the two-level lookup finds the entry of the pair |
| `Lru.Lru.MoveToBack` | lru.go:89-97 | moves one entry to the back and nothing else |
| `Lru.Lru.Touch` | lru.go:92-97 | the late move puts an element that is still in the list to its back and changes nothing otherwise |
| `Lru.Lru.Remove` | lru.go:243-250 | unlinks an entry from the list and both map levels; no per-key map is left empty |
| `Lru.Lru.Acquire` | lru.go:104-129 | answers a live entry or replaces an expired one by a pending entry |
| `Lru.Lru.Flight` | lru.go:73-130 | is the lookup of the value model |
| `Lru.Lru.Scan` | lru.go:132-164 | the first pass of the batch lookup answers what is live and lists the rest in order |
| `Lru.Lru.AcquireMissed` | lru.go:180-219 | the second pass acquires exactly the missed indices |
| `Lru.Lru.Flights` | lru.go:132-219 | is the batch lookup of the value model, and returns the indices that stay misses in increasing order |
| `Lru.Lru.Complete` | lru.go:226-238 | fills a pending entry, accounts its size and closes its channel |
| `Lru.Lru.EvictFromFront` | lru.go:240-252 | the in-place walk leaves exactly what the eviction of the value model leaves |
| `Lru.Lru.Update` | lru.go:221-260 | is the update of the value model and returns the entry's expiry |
| `Lru.Lru.Cancel` | lru.go:262-281 | removes a pending entry and fails its channel, and leaves anything else alone |
| `Lru.Lru.Purge` | lru.go:295-311 | drops the completed entries of one key, in any map order |
| `Lru.Lru.PurgeStore` | lru.go:313-318 | drops every completed entry |
| `Lru.Lru.PurgeKeys` | lru.go:319-323 | drops the completed entries of the given keys |
| `Lru.Lru.Delete` | lru.go:313-325 | is the invalidation of the value model; pending entries stay |
| `Lru.Lru.FailPending` | lru.go:329-338 | fails the channel of every pending entry, none of which was closed before |
| `Lru.Lru.Close` | lru.go:327-342 | is the close of the value model |
| `Coherence.StepCoherent` | lru.go:221-325 | every step of client, server and connection keeps the cache coherent |
| `Coherence.EveryRunIsCoherent` | pipe.go:866-881 | over every run each completed entry is the server's current answer with its key tracked, or an invalidation for it is queued; with nothing queued every completed entry is current |
| `Coherence.UpdateCompletesItsPair` | lru.go:221-239 | an update completes at most the entry of its own pair |
| `Coherence.DeletePurges` | lru.go:313-325 | after an invalidation no completed entry of the key is left |
| `Coherence.LocalCompletesNothing` | lru.go:73-281 | lookups, cancels and invalidations never complete an entry |
| `CachedReads.FillHoles` | pipe.go:1748-1756 | the nested loops put the n-th reply into the n-th hole and touch nothing else |
| `CachedReads.MissedAt` | pipe.go:1681-1684 | the n-th key of the rewritten command is the missed one of rank n |
| `CachedReads.Rewrite` | pipe.go:1667-1685 | the rewritten command asks for exactly the missed keys, in order |
| `CachedReads.FilledIsMerged` | pipe.go:1740-1756 | holes are exactly the missed positions once waits are in, so filling them yields the merged result |
| `CachedReads.MergeAgreesWithPlainRead` | pipe.go:1651-1758 | if every source answers what it was asked, every position holds an answer to its own key or command, for any mix of hits, waits, misses and duplicates; `CachedAnswers.CachedReadAnswers` discharges the condition |
| `CachedReads.DoCacheMGet` | pipe.go:1651-1758 | position i is the hit, the awaited value, or the reply to the rewritten argument that is key i; an error is the server's or that of an awaited entry; a refused transaction cancels the entries of all missed keys, anything else none |
| `CachedReads.PipelineAt` | pipe.go:1796-1805 | the n-th unit of the pipeline carries the n-th missed command at its offset, for both strides |
| `CachedReads.BuildPipeline` | pipe.go:1796-1805 | the pipeline is one unit per missed command, in order |
| `CachedReads.DoMultiCache` | pipe.go:1773-1908 | result i is the hit, the awaited entry, or the unit reply whose command in the pipeline is command i, with EXEC unpacked; exactly the entries of failed units are cancelled |
| `CachedReads.CancelUnits` | pipe.go:1829-1858 | the loop over the unit replies cancels exactly the entries whose EXEC failed, or whose connection failed for tagged commands, each with its own error |
| `CachedReads.CancelledAsReported` | pipe.go:1829-1906 | the error a cancelled entry is given is the one its own position reports |
| `CachedReads.RepeatWaits` | lru.go:104-129 | a pair that repeats within one read is asked once: later positions wait for the first |
| `CachedAnswers.CachedReadAnswers` | pipe.go:1651-1908 | in any run of client, server and connection every position of a read ends with an error or with a value that the server served to that very pair, that was current and tracked at some moment up to the return, and for which an invalidation was on its way ever since that moment until the lookup, if that moment is before it |
| `CachedAnswers.EverythingIsGiven` | lru.go:221-325 | over every run each reply on the connection and each completed entry is what the server served to that very pair, and what outdated it, if anything, is still on its way |
| `CachedAnswers.CurrentUnlessDoomed` | pipe.go:1651-1908 | an answer of a read is what the server would answer at some moment between lookup and return, unless an invalidation of the key was on its way at the lookup |
| `CachedAnswers.AnswersCanBeOutdated` | lru.go:73-260 | for every write that changes an answer, a run in which a waiter and then a hit get the old answer although the server would give it at no moment from lookup to return |
| `CachedAnswers.HitIsAnswer` | lru.go:73-130 | a hit is a value the server served to that very pair, current at the lookup or doomed by an invalidation on its way at every moment since it last was |
| `CachedAnswers.WaitIsAnswer` | lru.go:35-281 | a caller that waits on a pending entry is told an error or a value the server served to that very pair, current at its lookup or later, or doomed by an invalidation on its way from when it last was until the lookup |
| `CachedAnswers.ClosedByOwnReply` | lru.go:221-281 | a channel is closed with a value only by the reply to its own pair |
| `Bitmap.Bitmap.constructor` | bitmap.go:8-12 | room for n bits, all clear |
| `Bitmap.Bitmap.Set` | bitmap.go:14-20 | sets bit i and no other, across inline words and extensions |
| `Bitmap.Bitmap.Get` | bitmap.go:22-27 | reads bit i |
| `Bitmap.SetBit` | bitmap.go:14-20 | or-ing a single-bit mask sets that bit and keeps all others |
| `Bitmap.AndBit` | bitmap.go:22-27 | and-ing with a single-bit mask is non-zero exactly when the bit is set |
| `PickMulti.BucketsPartition` | cluster.go:721-839 | the buckets of a routing partition the batch: each index in exactly one bucket, once, beside its own command |
| `PickMulti.ChooseOne` | cluster.go:740-759 | one command's callbacks are asked once and what they said is remembered in bitmap and index map |
| `PickMulti.CountReplicas` | cluster.go:736-764 | the first pass finds a route for every command or reports that one is missing |
| `PickMulti.FillReplicas` | cluster.go:766-782 | the second pass, reading bitmap and index map only, reproduces the first pass's routes |
| `PickMulti.PickReplicas` | cluster.go:736-784 | the replica path yields the buckets of the routes the callbacks chose, or no connection |
| `PickMulti.CountMain` | cluster.go:786-802 | the scan ends with no connection, with the mixed-slots panic, or with every owner counted |
| `PickMulti.MixedMeans` | cluster.go:792-796 | the panic is reached only with a keyless command and two different slots |
| `PickMulti.ScanMeans` | cluster.go:786-802 | a scan that gets through found an owner for every key, and a single slot if keyless commands are present |
| `PickMulti.FirstOwned` | cluster.go:804-812 | the first slot that has an owner |
| `PickMulti.PickMain` | cluster.go:786-838 | keyed commands go to their slot's owner, keyless ones to one home slot; the exact conditions of the error returns |
| `PickMulti.Pick` | cluster.go:721-839 | whichever path is taken the buckets are those of one routing; there are buckets exactly when every command has a route on the replica path, and on the main path when the scan gets through and some slot has a connection; the error is the one the scan ended with, otherwise no connection |
| `ClusterBatch.EveryResultAnswersItsCommand` | cluster.go:1092-1155 | in every run over any number of rounds, with any answers and interleaving, buckets and workers keep commands beside their indexes, and on return every result is present and answers the command at its index |
| `ClusterBatch.StepInv` | cluster.go:861-1155 | every step keeps alignment and coverage |
| `ClusterBatch.QueueAligned` | cluster.go:876-937 | queueing a command or its whole transaction keeps every bucket aligned, whatever the redirect |
| `ClusterBatch.TransactionQueuedWhole` | cluster.go:886-917 | over a whole pass of doresultfn a command strictly inside MULTI and EXEC is queued only by an iteration inside, only with the whole transaction, and only when MULTI was answered OK |
| `ClusterBatch.TransactionQueuedOnce` | cluster.go:886-917 | an iteration inside queues the whole transaction if and only if MULTI was answered OK and it is the first inside whose result asks for it; any other iteration inside queues nothing |
| `ClusterBatch.MarkersQueuedAlone` | cluster.go:886-937 | MULTI and EXEC themselves are queued alone, exactly when their own result asks for it |
| `ClusterBatch.ExecQueuedOnItsOwn` | cluster.go:886-937 | MULTI, SET, EXEC with SET and EXEC told to move: EXEC is queued a second time after its transaction, or alone when MULTI was not answered OK |
| `ClusterBatch.MarksFrom` | cluster.go:886-891 | the markers are those of the last search, and no result that asks for queueing lies beyond them |
| `ClusterBatch.WrittenAtIndex` | cluster.go:869-875 | after a pass every index of the list holds its own result, or the closing error |
| `ClusterBatch.QueueAllAligned` | cluster.go:861-941 | a whole pass keeps every bucket aligned |
| `ClusterBatch.InitialInv` | cluster.go:1092-1110 | the picked buckets cover every index |
| `ClusterBatch.Batch.FindMarkers` | cluster.go:887-891 | the two scans find the nearest transaction boundaries |
| `ClusterBatch.Batch.AppendAll` | cluster.go:895-910 | the loop appends the stretch to the bucket, ASK or plain |
| `ClusterBatch.Batch.StoreResult` | cluster.go:869-875 | the result goes to its own index, replaced by the closing error when the client is closing |
| `ClusterBatch.Batch.QueueResult` | cluster.go:876-938 | one iteration queues as the value model says and leaves its markers |
| `ClusterBatch.Batch.DoResultFn` | cluster.go:861-941 | the loop writes each result at its own index and queues exactly the stretches of its iterations; results stay beside their commands and buckets aligned |
| `Recovery.ReplayKeepsAnswers` | cluster.go:1072-1076 | a replay from any point keeps every result beside its command and those before it unchanged |
| `Recovery.TxIdxTracksOpen` | cluster.go:1055-1071 | the tracker is the open MULTI, or 0 for none |
| `Recovery.RestartIsHead` | cluster.go:1055-1071 | the replay starts at the head of the interrupted transaction, or at the expired command outside one, if and only if that head is not the first command of the batch |
| `Recovery.RestartsAreHeads` | cluster.go:1055-1071 | whichever result expires the replay starts where it belongs, if and only if the batch does not begin with a MULTI that other commands follow |
| `Recovery.FrontTransactionIsCut` | cluster.go:1055-1071 | MULTI, SET, EXEC with the second result expired restarts inside the transaction |
| `Recovery.FindRestart` | cluster.go:1053-1071 | the scan finds the first expired result and the restart index |
| `Recovery.Recover` | cluster.go:1049-1077 | after any number of replays there is one result per command, in order, and none expired unless the replays ran out |
| `Recovery.AskingRestartsAtHead` | cluster.go:1238-1257 | whatever result of an ASK batch expires, the replay starts at the ASKING in front of the transaction or command it belongs to |
| `Recovery.UnitIsTransaction` | cluster.go:1225-1235 | a unit of several commands starts with MULTI and has no EXEC before its last |
| `Recovery.AnsweredInOrder` | cluster.go:1258-1262 | dropping the ASKING results leaves one result per command, in order |
| `Recovery.BuildAsking` | cluster.go:1225-1235 | one ASKING per command outside a transaction, one per transaction |
| `Recovery.FindAsking` | cluster.go:1240-1251 | the scan finds the last ASKING at or before the first expired result |
| `Recovery.AskingMulti` | cluster.go:1224-1265 | returns one result per command, in order, and none expired unless the replays ran out |
| `Rebucket.SortConserves` | cluster.go:961-1026 | the loop over a bucket neither loses nor invents a pair, for every answer of the picker |
| `Rebucket.SortKeepsSpans` | cluster.go:990-1025 | every MULTI..EXEC span comes through in one piece, kept or moved to one connection |
| `Rebucket.BlockArrives` | cluster.go:1034-1042 | a block that moves to one connection arrives there in one piece |
| `Rebucket.DeliverKeepsAsks` | cluster.go:1034-1042 | delivering the moves leaves ASK sub-buckets alone |
| `RebucketRun.Keep` | cluster.go:966-1018 | copying a unit down in the same arrays leaves every pair behind it unwritten |
| `RebucketRun.Compact` | cluster.go:965-1028 | the in-place loop keeps and moves exactly what the loop on values does |
| `RebucketRun.FindEnd` | cluster.go:994-1000 | the scan finds the matching EXEC, or the end of the bucket |
| `RebucketRun.DeliverConserves` | cluster.go:1034-1042 | delivery adds exactly the moved pairs |
| `RebucketRun.RebucketRetries` | cluster.go:949-1043 | for every map order and slot map the multiset of pairs is unchanged, ASK sub-buckets are untouched, and every span contiguous before is contiguous in one bucket after |
| `RebucketRun.ConservedAligned` | cluster.go:949-1043 | buckets with the same pairs are aligned with the batch if the old ones were |
| `Refresh.RepairedW` | cluster.go:362-389 | under the condition on the groups no slot is left writing to a replaced connection |
| `Refresh.RepairedR` | cluster.go:362-389 | no slot is ever left reading from a replaced connection |
| `Refresh.RepairMisses` | cluster.go:362-389 | for groups that violate the condition, with a missed slot that no third group with the replaced nodes covers, an order of the two walks and two replacements that leave the slot on a replaced connection |
| `Refresh.RepairCompleteIffHarmless` | cluster.go:268-389 | when every clash of two groups has a slot that no third group with their replaced nodes covers, the repair is complete in every execution if and only if, with shared lists, a group of several nodes that meets another lies within it |
| `Refresh.RepairKnown` | cluster.go:268-389 | every connection in the repaired tables is a prepared one or a replacement |
| `RefreshTables.SlotTables.BuildAll` | cluster.go:268-336 | the tables hold, for each slot, the nodes of the last group walked that covers it |
| `RefreshTables.SlotTables.RepairGroup` | cluster.go:363-388 | one group is skipped or repaired slot by slot, through shared lists too |
| `RefreshTables.SlotTables.RepairAll` | cluster.go:362-389 | the whole repair loop is a repair in the given order |
| `RefreshCommit.StepInv` | cluster.go:614-646 | every redirect, late dial, snapshot and commit keeps connections under their own address and out of the closing set |
| `RefreshCommit.CommitIsSafe` | cluster.go:241-405 | if the groups meet that condition, then whatever happened since the snapshot every connection of the committed tables is in the new map and not scheduled for closing; every old connection is kept or scheduled for closing |
| `RefreshCommit.CommitSafeIffHarmless` | cluster.go:241-405 | over all runs of the client from its start and all orders of the walks, commits install only usable connections if and only if, under a read-node selector, a group of several nodes that meets another lies within it; every clash has a slot that no third group with the replaced nodes covers |
| `RefreshCommit.CommitInstallsClosing` | cluster.go:241-405 | for any groups that violate the condition with such a slot, a run of snapshot, redirects and commit that leaves the slot on a connection scheduled for closing |
| `RefreshCommit.OverlapInstallsClosing` | cluster.go:241-405 | two concrete groups, one slot in both and one in the second only, for which a commit installs a closing connection |
| `RefreshCommit.OldConnsAccounted` | cluster.go:344-361 | an old connection stays exactly when its address is in the new topology, and is scheduled for closing otherwise |
| `RefreshCommit.ReplacedSettled` | cluster.go:350-360 | a replacement is never itself replaced |
| `RefreshCommit.Reconcile` | cluster.go:341-361 | in any map order the loop computes the merged map, the replacements and what to close |
| `RefreshCommit.ConnMap.RedirectOrNew` | cluster.go:614-646 | adds, replaces or reuses; never returns the connection it came from nor one that is being closed; a connection made for MOVED becomes the primary of the slot and no other slot changes |
| `Aside.NeverStale` | rueidisaside/aside.go:151-310 | over every run of any number of clients no cached value is older than an update whose delete has completed |
| `Aside.StepInv` | rueidisaside/aside.go:151-310 | every step of every client keeps the lock invariant, requests that never reach Redis included |
| `Aside.StoredUnderOwnLock` | rueidisaside/aside.go:227-269 | a stored value came from a source read during all of which the key held that call's own placeholder |
| `Aside.HeldMeansThroughout` | rueidisaside/aside.go:227-269 | a key that holds a call's placeholder has held it since that call acquired it |
| `AsideLate.NeverStaleIffInOrder` | rueidisaside/aside.go:227-269 | for each choice of the kinds of commands that calls may leave on the way when they end between the loss of a connection and the dropping of the id: over all runs with commands executed late nothing older than a completed delete is cached, if and only if locks and stores are not among them |
| `AsideLate.NeverStaleInOrder` | rueidisaside/aside.go:151-310 | when at most cleanups are left on the way, no cached value is older than an update whose delete has completed, in any state of any run |
| `AsideLate.LateStoreIsStale` | rueidisaside/aside.go:227-269 | if stores may be left, for every client, key and id a run in which a store that outlived its call is accepted under the lock of the next call and caches a stale value |
| `AsideLate.LateLockIsStale` | rueidisaside/aside.go:227-269 | if locks may be left, for every client, key and id a run in which a lock that outlived its call renews a placeholder deleted under the next call, whose store then caches a stale value |
| `AsideLate.StepKept` | rueidisaside/aside.go:151-310 | when at most cleanups are left, every step of clients, connections and Redis keeps calls with one key and id apart, with neither lock nor store of the earlier one on the way |
| `AsideLate.FreedIsLast` | rueidisaside/aside.go:227-269 | on the one connection of a client, an executed cleanup leaves no command of its call on the way |
| `Aside.ClientState.Register` | rueidisaside/aside.go:94-102 | returns the open channel of the key, an existing one if there is one |
| `Aside.ClientState.OnInvalidation` | rueidisaside/aside.go:69-92 | a lost connection drops the id and closes every wait; otherwise exactly the named keys are woken |
| `Aside.ClientState.BeginFlight` | rueidisaside/aside.go:205-215 | one leader per key, with a channel of its own |
| `Aside.ClientState.FinishFlight` | rueidisaside/aside.go:217-225 | ends exactly the flight it began |
| `PubSub.EveryRunIsDisciplined` | pubsub.go:63-152 | over every run the two indexes agree, no channel is closed twice or listed after it is closed, and a subscriber once registered is registered, about to be closed, or closed |
| `PubSub.ApplyInv` | pubsub.go:63-152 | every operation keeps the index exact |
| `PubSub.Subs.Subscribe` | pubsub.go:73-102 | registers the id under exactly the channels asked for, or nothing after Close |
| `PubSub.Subs.Publish` | pubsub.go:63-71 | reaches exactly the subscribers of the channel, none of them closed |
| `PubSub.Subs.Remove` | pubsub.go:104-114 | removes a subscriber from both indexes, once |
| `PubSub.Subs.Cancel` | pubsub.go:88-98 | cancel removes and closes what is still registered |
| `PubSub.Subs.Unsubscribe` | pubsub.go:128-140 | removes and closes exactly the subscribers of the channel |
| `PubSub.Subs.Close` | pubsub.go:142-152 | closes every registered channel once |
| `Resp.NextTyped` | resp.go:278-305 | every decoded message and every element of a decoded aggregate has a type |
| `RespWire.DecimalRoundTrip` | resp.go:196-203 | the digit loop reads back the decimal form of every number up to 2^63, with 64-bit wrap-around |
| `RespWire.NumberRoundTrip` | resp.go:180-204 | a number line reads back as its number over the whole 64-bit range |
| `RespWire.ValueReads` | resp.go:278-305 | wherever a legal encoding stands, the reader returns what it means and stops right behind it: nested aggregates, streamed forms, attributes, RESP2 nulls |
| `RespWire.StreamedAndFixedAgree` | resp.go:85-156 | streaming any nodes of a nested value changes neither the message nor where reading stops |
| `RespWire.CommandRoundTrip` | resp.go:374-382 | a written command reads back as the array of its arguments |
| `RespWire.CommandsRoundTrip` | resp.go:238-305 | commands written back to back read back as exactly those commands, and following bytes are left unread |
| `RespWire.BlobListAt` | resp.go:374-382 | element i of a command's array is its argument i as a blob string |
| `RespStream.StreamingIsReading` | resp.go:309-347 | for every input whose chunks carry their marker, streaming a blob or verbatim string writes exactly the text reading it returns and stops at the same byte; a null is reported as such |
| `RespStream.StringsAreStreamed` | resp.go:309-347 | the same for every legal encoding of a string, fixed or chunked |
| `RespStream.ChunksAreCopied` | resp.go:318-325 | when the chunks carry their marker, the loop over them copies what the string builder of the reader gathers |
| `RespWriter.LeadingDigit` | resp.go:268-272 | dividing by the largest power of ten gives the first digit and leaves the others |
| `RespWriter.Output.WriteDigits` | resp.go:264-273 | the digit loop writes the decimal form |
| `RespWriter.Output.WriteN` | resp.go:264-276 | a type byte, the decimal form, a line end |
| `RespWriter.Output.WriteB` | resp.go:250-255 | a length line, the bytes, a line end |
| `RespWriter.Output.WriteCmd` | resp.go:374-382 | the wire form of the command |
| `RespIo.OkLine` | resp.go:162-167 | the fast path for OK agrees with the general line reader |
| `RespIo.Input.ReadI` | resp.go:180-204 | the running number reader is the one of the model, error cases included |
| `RespIo.Input.ReadS` | resp.go:161-178 | line reader with its fast path |
| `RespIo.Input.ReadChunks` | resp.go:87-109 | the chunk loop gathers the text chunk by chunk |
| `RespIo.Input.ReadBlobString` | resp.go:85-111 | counted, chunked and RESP2 null strings |
| `RespIo.Input.ReadAggregate` | resp.go:135-156 | arrays and maps, counted and open |
| `RespIo.Input.ReadCounted` | resp.go:238-248 | exactly n messages, or the first failure |
| `RespIo.Input.ReadUntilEnd` | resp.go:224-236 | messages up to the end marker |
| `RespIo.Input.ReadNextMessage` | resp.go:278-305 | the attribute loop; the last attribute is kept, a RESP2 null drops it |
| `RespIo.Input.StreamTo` | resp.go:309-372 | the running copy writes, counts and stops as the model says |
| `CacheCodec.CacheRoundTrip` | message.go:621-716 | decoding an encoded tree restores it with its expiry, and the output length is the announced size |
| `CacheCodec.CachePrefixRejected` | message.go:656-716 | every proper prefix is refused with an error, never a panic |
| `CacheCodec.RoundTrip` | message.go:635-682 | decoding at any offset returns the encoded tree and stops at its last byte |
| `CacheCodec.PrefixRejected` | message.go:656-682 | a tree that is cut anywhere is refused |
| `CacheCodec.SerializeSize` | message.go:621-654 | the encoding is exactly as long as the size function says |
| `CacheCodec.LittleEndianRoundTrip` | message.go:1620-1633 | an expiry below 2^56 survives its seven bytes |
| `CacheCodec.Get64Put64` | message.go:639-664 | a signed 64-bit number survives its big-endian form |
| `CacheCodec.SerializeTo` | message.go:635-654 | the recursive writer appends the encoding |
| `CacheCodec.CacheMarshal` | message.go:691-699 | expiry and tree are appended to the caller's buffer |
| `CacheCodec.UnmarshalView` | message.go:658-682 | the recursive reader computes the decoding, error and panic cases included |
| `CacheCodec.UnmarshalValues` | message.go:672-676 | the element loop stops at the first failure |

## Left out

- Dialing, TLS, HELLO and AUTH, timers, deadlines, keepalive pings, `rueidis.go` and `url.go`: input, output and configuration.
- The Redis 6 invalidation workaround and the RESP2 subscription pipe of `pipe.go`: transports of their own with other transcripts.
- Stray unsubscribe pushes inside opt-in cache batches, and inside a run of subscribe confirmations: not part of the transcript grammar.
- The cache updates inside the read loop (pipe.go:690-730) are the receive step of `Coherence`, not part of `ReplyMatching`.
- `Ring.NoDeadlock`: a caller that waits is one whose fill step is not yet taken; sleeping and waking are added in `RingWakeups`.
- `RingStore.Store.constructor`: scales above 32, whose slots no machine has memory for, are not modelled.
- The hit and miss counters of the cache decide when a hit moves its entry; here that choice is arbitrary.
- `Aside.NeverStale`: Redis commands and scripts are atomic, client ids are distinct, and a command whose failure was reported is not executed later; `AsideLate` drops the last assumption.
- `AsideLate.NeverStaleInOrder`: the code does not keep locks and stores from being left on the way, and `AsideLate.NeverStaleIffInOrder` shows that the statement needs it.
- `Recovery.Recover`: the number of replays is a parameter; the source replays until nothing is expired, so termination is not claimed.
- `Recovery.AskingMulti`: the number of replays is a parameter there too.
- `ClusterBatch.EveryResultAnswersItsCommand`: results before the first round are absent rather than left over from a pool.
- `RebucketRun.RebucketRetries`: the picker's answer for each unit is arbitrary, so which slot it is asked for is not modelled; buckets are values between two compactions, only the compaction works in arrays.
- `PickMulti.Pick`: the batch is not empty, as its caller returns early for an empty one.
- `Refresh.RepairCompleteIffHarmless`: the necessity half assumes that every clash has a slot that no third group with the replaced nodes covers.
- `RefreshCommit.CommitSafeIffHarmless`: the necessity half assumes the same of the addresses.
- `RefreshCommit.CommitIsSafe`: false without the condition on the groups, as `RefreshCommit.CommitInstallsClosing` shows.
- Parsing of CLUSTER SLOTS and CLUSTER SHARDS replies: it produces the groups the refresh starts from, each with its primary as first node.
- `RefreshCommit.ConnMap.RedirectOrNew`: the unlocked first look is merged into the locked part, and the slots are a map of their own, not the tables of `Refresh`.
- `CachedReads.DoMultiCache`: an EXEC reply has elements.
- `CachedReads.MergeAgreesWithPlainRead`: a statement about any notion of answer; the one of the protocol is in `CachedAnswers`.
- `CachedReads.DoCacheMGet`: the path argument of JSON.MGET is not a key and is not modelled.
- `RespIo.Input.ReadI`: a number line longer than the read buffer is not modelled, nor are allocation failures for lengths no peer can send.
- `RespStream.StreamingIsReading`: chunks must carry their marker, which the reader skips unseen; a failing writer is not modelled.
- `RespStream.ChunksAreCopied`: the chunks must carry their marker there too.
- `RespWriter.Output.WriteDigits`: the starting divisor is the largest power of ten not above the number; the floating-point computation of it is not modelled.
- `CacheCodec.UnmarshalView`: allocation limits for huge element counts are not modelled.
- `PubSub.Subs.Subscribe`: the id is drawn and registered in one step, while the source draws it before taking the lock.
- `PubSub.Subs.Publish`: message contents and the buffering of subscriber channels are not modelled, and subscription confirmations (`Confirm`) are left out.
- `unsafe` views, pools and recycling of messages, commands and buffers: messages are immutable trees.
- `pool.go`, `mux.go`, `sentinel.go`, `standalone.go`, `client.go`, `singleflight.go`, `retry.go`, `helper.go`, `lua.go`, `cache.go` and the `rueidiscompat`, `mock`, `om`, `rueidislimiter` modules: routing, retry policies and wrappers over the parts above.
