# A verified model of the zzdds example applications

The example applications are small programs on top of a DDS middleware. Five of them
carry algorithms and protocols of their own; this project models those and proves what they
are for, for all sizes, inputs and interleavings. The middleware is modelled only as an
environment: channels, readers with queues, callbacks, conditions, the dynamic linker.
The fixed counts of the programs (10 and 5 samples, 256 slots, 512 blocks) are parameters.

`dafny verify dfyconfig.toml` checks everything.

| files | what they model |
|---|---|
| `BlockStack.dfy`, `PoolProtocol.dfy`, `PoolCalls.dfy`, `StaticPool.dfy` | the static pool allocator: the abstract stack, the interleavings of any number of threads, what single calls do in them, the sequential code over its two-dimensional array |
| `CatchupModel.dfy`, `Catchup.dfy`, `CatchupRuns.dfy` | the catch-up handshake of two processes and four threads: its steps, what every run keeps, and which runs exist |
| `ShapeKeys.dfy`, `ShapePublisher.dfy`, `ShapeTrace.dfy`, `ShapeContents.dfy` | keys, write loops, traces and contents of the shape publisher |
| `ShapeReader.dfy`, `ShapeLink.dfy` | colour cache and content checks of the shape subscriber, and the link from publisher to subscriber |
| `Waitset.dfy`, `Registry.dfy`, `Presence.dfy` | the draining wait loop and the two observers |
| `GuardModel.dfy`, `GuardLookUps.dfy`, `GuardThreads.dfy`, `NoAllocGuard.dfy` | the preloaded no-allocation guard: what each call does to the process, what that means for look-ups and for whole threads, and the code |
| `Arithmetic.dfy` | products and remainders |

## How the concurrency is modelled

The pool is shared under one mutex, and owners write to their blocks without it. A state is the
head pointer, the first word of every block, the lock and the program counter of every thread;
every load, store, lock and unlock is one step, and an owner's write of any word is a step that
is always possible. Blocks are named by their index, NULL is -1. The field `place` is not part of
the program: it records which blocks a caller is entitled to release or overwrite, and the
invariant ties it to memory and to the program counters. The abstract stack changes when a call
gives the lock back.

The catch-up programs communicate through atomics with default ordering, so their steps are
single loads and stores in a sequentially consistent order; each load of a scan is a step of
its own. The channel delivers samples that were written, in any order and as often as it likes;
a take returns any delivered sample, so a FIFO channel without repetitions is a special case, and
no safety statement depends on it. Time-outs and failed takes are failures that may happen at any
point where the program polls or takes. The matched callback may report any counts in any order;
the end-to-end statements alone assume that, once a match was reported, a count of 0 is reported
only after the subscriber's reader is gone. Other readers may therefore come and go while it is
matched, but none before it: `OtherReaderEndsDrain` is a run in which one does and the publisher
passes its drain wait with nothing delivered, and `DrainCanPassIff` says exactly from which states
it can pass. wait_for_historical_data() may succeed as soon as a
writer has matched.

The guard is given as functions on the state of the process, and its code is a class proved to
compute them. What dlsym() calls while it looks a function up, and what the diagnostics call while
they report, are trees of further calls, of any shape. `FirstCall` and `ThreadAbortsIff` assume that
dlsym() finds the four functions and asks for nothing but zeroed memory of ordinary size, releasing
only what it got; what every call keeps (`CallsAreGood`) assumes nothing.

The other loops are methods proved against specification functions. Whatever the outside decides
(matched counts, arrivals, interrupts, write results, random numbers, look-ups) is a parameter.

## What turned out not to hold

* The count check after wait_for_historical_data() (c/catchup/src/subscriber.c:203-211) is meant
  to confirm that every historical sample was delivered, but it reads flags that the listener
  sets later. `CountCheckCanFail` says exactly when main can report a short count, and
  `DeliveredIsNotYetFlagged` gives a run in which all samples were delivered and it does.
* The design document (docs/design/catchup-reference-app.md:89-99) asks the subscriber to confirm
  the order of the historical batch, and to count no sample as live before the wait for it is
  over. The code checks neither. A successful run with a historical batch out of order exists
  exactly when the batch has two samples (`OutOfOrderUnnoticedIff`), and a successful run that
  counted live samples before the wait was over, even with all samples taken in order, exactly
  when there are live samples (`EarlyLiveUnnoticedIff`). What does hold: samples taken in order are
  confirmed in order, ahead of any live one (`ConfirmedInOrder`), and no historical flag changes
  after the confirmation (`HistoryIsClosed`).
* `--size-modulo` cycles the automatic sizes for every modulo except the largest 32-bit value
  (`ModuloIsKept`), and readers reject what the publisher sends exactly when the configured size
  is negative or an uncycled automatic size has passed that value (`ReadersAcceptIff`).
* Instance colours are distinct, but the C port cuts them at 128 characters, so that keys stay
  distinct, and are retired once each, exactly while the longest one fits (`KeysDistinctIff`,
  `KeysRetiredOnceIff`).
* The C port's colour cache misses a change of colour of a handle that a full array never took
  up, and of one whose earlier colour was empty. `CAcceptsIff` says exactly which streams it gets
  through, `CMissesChangeIff` which of them the Java port rejects; `ColorChangeGoesUnseenIff` is
  the same for two samples from any cache, and `PortsAgreeIff` says for one sample exactly when
  the two handlers differ.
* The C++ port's look-up for a not-alive sample enters an empty colour. `CppRejectsIff` says
  exactly which streams that the Java port accepts it therefore rejects: those with a keyless
  not-alive sample of a handle without a valid sample so far, whose first valid sample then has a
  colour.
* The bootstrap pool sets aside enough for a request exactly when its size computation does not
  wrap around (`PaddedHoldsRequestIff`).

## Model

Rows marked (step) are lemmas and parts that the results beside them rest on.

| member | source | states |
|---|---|---|
| BlockStack.WalkIsUnique | c/custom-allocator/src/static_pool_allocator.c:15-20 | two lists threaded through the blocks from the same head are the same list |
| BlockStack.LinkedIsAcyclic | c/custom-allocator/src/static_pool_allocator.c:15-20 | a list that ends in NULL visits no block twice |
| BlockStack.CallsUndoEachOther | c/custom-allocator/src/static_pool_allocator.c:42-73 | (step) free then alloc, and alloc then free, restore the list; the block just freed is the next one handed out |
| BlockStack.NoBlockHandedOutTwice | c/custom-allocator/src/static_pool_allocator.c:42-73 | in a history that the stack admits, between two allocations of one block lies a release of it |
| PoolProtocol.InitInv | c/custom-allocator/src/static_pool_allocator.c:31-40 | (step) the state after a reset satisfies the invariant with all blocks free |
| PoolProtocol.LayoutSurvivesOwner | c/custom-allocator/src/static_pool_allocator.c:15-29 | (step) an owner's write to the first word of its block, without the lock, leaves the free list as it was at every point of any other thread's call |
| PoolProtocol.StepRefinesStack | c/custom-allocator/src/static_pool_allocator.c:42-73 | every access of every thread keeps the invariant and does to the stack what the completed call should |
| PoolProtocol.RunRefinesStack | c/custom-allocator/src/static_pool_allocator.c:29-73 | every interleaving returns what the LIFO stack returns, taken in the order of the critical sections |
| PoolProtocol.EveryBlockInOnePlace | c/custom-allocator/src/static_pool_allocator.c:19-73 | in every reachable state the head leads into exactly one list, without cycle, and each block is in that list, with one owner, or carried by one call, never two of these |
| PoolProtocol.BlocksAreConserved | c/custom-allocator/src/static_pool_allocator.c:19-73 | free + owned + in transit = block count in every reachable state |
| PoolProtocol.LiveAllocationsAreDistinct | c/custom-allocator/src/static_pool_allocator.c:42-73 | in every concurrent run no block is allocated again before it is released |
| PoolProtocol.NullOnlyWhenExhausted | c/custom-allocator/src/static_pool_allocator.c:44-49 | an accepted request comes back empty exactly when no block was free at its locked read |
| PoolProtocol.NoAccessFaults | c/custom-allocator/src/static_pool_allocator.c:45-72 | no call ever dereferences anything but a block, and only a taken lock can hold it up |
| PoolProtocol.SomeThreadCanAdvance | c/custom-allocator/src/static_pool_allocator.c:29-73 | while a call is in progress some thread can take a step |
| PoolCalls.RequestIsLetIn | c/custom-allocator/src/static_pool_allocator.c:44-45 | in every run a request is refused exactly when it is longer than a block or asks for more than the pool's alignment; otherwise its thread goes for the lock |
| PoolCalls.ReleaseIsLetIn | c/custom-allocator/src/static_pool_allocator.c:63-66 | a release of NULL does nothing, any other one goes for the lock with its block |
| PoolCalls.OwnersAct | c/custom-allocator/src/static_pool_allocator.c:15-19 | an owner writes any word into its block without the lock, or hands the block over |
| PoolCalls.ReturnsAreRecorded | c/custom-allocator/src/static_pool_allocator.c:45-72 | the thread to which an allocation returns a block owns it then, and a block given back is free |
| PoolCalls.OwnershipIsKept | c/custom-allocator/src/static_pool_allocator.c:42-73 | only its owner ends the ownership of a block, by releasing it or handing it over |
| PoolCalls.AllocAlone | c/custom-allocator/src/static_pool_allocator.c:42-50 | from any reachable state with the lock free, a legal request that nobody disturbs comes back with the top of the stack as its own, or with NULL and nothing changed |
| PoolCalls.FreeAlone | c/custom-allocator/src/static_pool_allocator.c:63-73 | a release that nobody disturbs puts its block on top of the stack |
| StaticPool.AlignedBlocks | c/custom-allocator/src/static_pool_allocator.c:7-19 | all blocks meet the pool alignment exactly when the block size is a multiple of it |
| StaticPool.AddressMeetsAlignment | c/custom-allocator/src/static_pool_allocator.c:13-19 | every block address meets each power of two up to the pool alignment |
| StaticPool.BlocksAreDisjoint | c/custom-allocator/src/static_pool_allocator.c:19-19 | accepted lengths in different blocks share no byte |
| StaticPool.Pool.constructor | c/custom-allocator/src/static_pool_allocator.c:19-20 | (step) before any reset nothing is free |
| StaticPool.Pool.Reset | c/custom-allocator/src/static_pool_allocator.c:31-40 | from any contents the pool becomes fully free, in the state from which the concurrent runs start |
| StaticPool.Pool.Alloc | c/custom-allocator/src/static_pool_allocator.c:42-50 | refuses oversized requests and alignments, otherwise pops the stack; NULL exactly when every block is owned; the address lies in the pool and meets the alignment |
| StaticPool.Pool.Free | c/custom-allocator/src/static_pool_allocator.c:63-73 | pushes the block, touching one word of it; freeing NULL does nothing |
| StaticPool.Pool.OwnerWrite | c/custom-allocator/src/static_pool_allocator.c:15-19 | an owner may write any word of its block without disturbing the pool |
| StaticPool.Pool.ResizeStaysInBlock | c/custom-allocator/src/static_pool_allocator.c:52-61 | a resize succeeds exactly when the new length stays inside the block, clear of all other live allocations |
| Catchup.StepKeepsInv | c/catchup/src/subscriber.c:46-101 | every load and store of the four threads keeps the joint invariant |
| Catchup.DrainGate | c/catchup/src/publisher.c:35-41 | the drain loop is left only after a positive count and a later 0, for any counts and any interleaving of the stores with the loads |
| Catchup.AllDoneIsEarned | c/catchup/src/subscriber.c:83-100 | all_done implies that the history was confirmed and every flag is set by a taken sample |
| Catchup.FullCountMeansAllFlags | c/catchup/src/subscriber.c:203-211 | a count made one flag at a time reaches the total only when all flags are set together |
| Catchup.NoLostCompletion | c/catchup/src/subscriber.c:212-215 | after main's own check, a listener that has left its loop with all samples taken, in any order and however often, leaves all_done true |
| Catchup.ListenerIsSafe | c/catchup/src/subscriber.c:67-96 | the listener never leaves its flag arrays and never meets an unexpected number |
| Catchup.ListenerCommitsLast | c/catchup/src/subscriber.c:98-100 | after the listener has stored all_done no callback touches the reader again but one that starts later |
| Catchup.DrainedMeansDelivered | c/catchup/src/publisher.c:115-160 | when the publisher passes its drain wait, the subscriber has taken every sample of both batches and deleted its reader, unless its process failed before the deletion |
| Catchup.DrainedMeansFinished | c/catchup/src/publisher.c:115-160 | when a reader is unmatched only by its own deletion, passing the drain wait means, without exception, that the subscriber has taken every sample and finished |
| Catchup.OtherReaderEndsDrain | c/catchup/src/publisher.c:150-158 | a run in which a reader that left before the subscriber's was created ends the drain wait |
| CatchupRuns.DrainCanPassIff | c/catchup/src/publisher.c:35-41 | without another callback the drain wait can be passed exactly when a match was reported and the last count stored, or about to be, is 0 |
| CatchupRuns.FailuresAreFinal | c/catchup/src/subscriber.c:216-222 | a time-out or a failed take ends its process, which then does nothing more |
| CatchupRuns.ConfirmedInOrder | c/catchup/src/subscriber.c:203-211 | when samples are taken in order, a confirmed historical batch was taken as 0 to H-1 in this order, ahead of any live sample |
| CatchupRuns.HistoryIsClosed | c/catchup/src/subscriber.c:211-215 | after the confirmation no historical flag changes |
| CatchupRuns.OutOfOrderUnnoticedIff | c/catchup/src/subscriber.c:203-211 | a subscriber can finish with its historical batch out of order exactly when the batch has two samples |
| CatchupRuns.EarlyLiveUnnoticedIff | c/catchup/src/subscriber.c:83-96 | a subscriber can finish having counted live samples before the wait was over, even when takes are in order, exactly when there are live samples |
| Catchup.SettledMeansFinished | c/catchup/src/publisher.c:128-158 | with nothing left to deliver or report, two mains that only wait have both finished |
| Catchup.CountCheckCanFail | c/catchup/src/subscriber.c:194-211 | main can report a short count exactly when some historical flag is not yet set as its scan starts |
| Catchup.DeliveredIsNotYetFlagged | c/catchup/src/subscriber.c:194-211 | a run in which every historical sample was delivered before the scan and main still fails |
| ShapeKeys.DecimalIsInjective | c/shape/src/shape_main.c:324-328 | (step) different instance numbers print differently |
| ShapeKeys.InstanceColorIsInjective | java/shape/ShapeMain.java:217-219 | different instances have different colours for every base colour |
| ShapeKeys.KeyContents | c/shape/src/shape_main.c:324-328 | the first instance has the base colour itself, any other one the base colour and its number in decimal, without leading zeros; a C sample holds the first 128 characters |
| ShapeKeys.KeysDistinctIff | c/shape/src/shape_main.c:324-328 | the C port's keys of n instances are distinct exactly when the longest fits the limit |
| ShapePublisher.AutoSizeStep | c/shape/src/shape_main.c:471-474 | (step) one step of the running counter is one step of the closed form |
| ShapePublisher.ModuloIsKept | c/shape/src/shape_main.c:471-474 | sizes cycle from 1 to the modulo for every modulo but the largest 32-bit value |
| ShapePublisher.WriteSet | c/shape/src/shape_main.c:449-478 | one coherent set is its begin, the samples at their coordinates with the closed-form sizes, and its end, and all its writes succeeded; otherwise it stops at its first failed write with the samples before it |
| ShapePublisher.WritePlain | c/shape/src/shape_main.c:480-505 | one plain iteration writes one sample per topic and instance, all of the size of the iteration, with every write a success, or stops at its first failed one |
| ShapePublisher.RetireAll | c/shape/src/shape_main.c:512-532 | retires the key of every topic and instance in order, with every retirement a success, or stops at the first failure |
| ShapePublisher.LeadingIsFirstMatch | c/shape/src/shape_main.c:418-443 | (step) the rounds counted as leading saw no match, and the round behind them saw one |
| ShapePublisher.WriteLoop | c/shape/src/shape_main.c:415-510 | the loop leaves at the first interrupt, with the configured windows written, at a round that is late with no match so far, or at its first failed write, and passes no such round; the rounds before wrote one window each, in sets only those from the first match on, and all their writes succeeded |
| ShapePublisher.Publish | c/shape/src/shape_main.c:415-551 | the same for the whole publisher; a finite run that leaves its loop retires all keys, each successfully, or stops at the first failure; each exit leaves the stated trace |
| ShapePublisher.WindowsUpTo | c/shape/src/shape_main.c:415-416 | (step) a finite run never writes more windows than configured |
| ShapePublisher.PublishFinishes | c/shape/src/shape_main.c:412-533 | a finite run finishes, with the configured windows and all retirements, exactly when its loop is due to finish at some round and every write and retirement succeeds |
| ShapePublisher.PublishUndisturbed | c/shape/src/shape_main.c:412-533 | a finite run without interrupt, late match or failure finishes exactly when its rounds suffice, then with the configured number of windows and all retirements, and is otherwise still running |
| ShapePublisher.NothingBeforeMatch | c/shape/src/shape_main.c:434-442 | a gated publisher that has seen no match has written nothing, not even a begin, and no write of its can have failed |
| ShapeContents.SampleCarries | c/shape/src/shape_main.c:449-506 | for all options a sample carries the topic, the key of its instance, the position of its draw, and the configured size or, when that is 0, the number of its draw plus one in the cycle of the modulo or wrapped around |
| ShapeContents.SampleStandsAt | c/shape/src/shape_main.c:449-506 | every sample of every iteration stands at its place in the trace, in the order of iteration, topic, instance and index |
| ShapeContents.BracketsAt | c/shape/src/shape_main.c:449-478 | with coherent or ordered access every iteration begins with its begin and ends with its end |
| ShapeContents.RetirementContents | c/shape/src/shape_main.c:512-532 | the final loop names its keys topic by topic and instance by instance, disposing or unregistering as configured |
| ShapeTrace.SampleIsAt | c/shape/src/shape_main.c:451-477 | the sample of each topic, instance and index stands at its row-major place |
| ShapeTrace.SizesFollowCoordinates | c/shape/src/shape_main.c:449-506 | with automatic sizes every sample carries 1 plus its global index, or its iteration, modulo m |
| ShapeTrace.GatedTraceIsSets | c/shape/src/shape_main.c:434-478 | a gated trace is a sequence of closed sets of topics * instances * samples writes, nothing outside them |
| ShapeTrace.ReadersAcceptIff | c/shape/src/shape_main.c:799-805 | everything n iterations write is in range for the reader exactly when the sizes stay positive |
| ShapeTrace.RetiredKeysAreWrittenKeys | c/shape/src/shape_main.c:512-532 | per topic the final loop retires exactly the keys that each iteration writes |
| ShapeTrace.KeysRetiredOnceIff | c/shape/src/shape_main.c:512-532 | no key is retired twice exactly when the longest key fits the limit |
| ShapeReader.ColorCache.constructor | c/shape/src/shape_main.c:558-564 | (step) the cache starts empty |
| ShapeReader.ColorCache.Put | c/shape/src/shape_main.c:566-581 | updates a known handle, enters a new one while there is room, drops it otherwise; used slots stay a prefix with distinct handles |
| ShapeReader.ColorCache.Get | c/shape/src/shape_main.c:583-588 | reads the remembered colour, the empty string for an unknown handle |
| ShapeReader.CacheIsBoundedMap | c/shape/src/shape_main.c:564-588 | after any puts the array is the unbounded map restricted to the first handles, as many as fit |
| ShapeReader.CacheAgreesWithMap | java/shape/ShapeMain.java:497-499 | up to capacity in different handles the array equals the hash map |
| ShapeReader.JavaReader.ProcessSample | java/shape/ShapeMain.java:569-604 | raises or prints and remembers as specified; a failed check changes nothing |
| ShapeReader.JavaReader.Drain | java/shape/ShapeMain.java:535-548 | handles a queue sample by sample up to the first failure |
| ShapeReader.HandleTaken | c/shape/src/shape_main.c:773-806 | one taken sample: not-alive line, pause, hard failure, or remembered and printed |
| ShapeReader.TakeLoop | c/shape/src/shape_main.c:762-818 | one pass of the take loop over a queue |
| ShapeReader.LinesShow | c/shape/src/shape_main.c:773-815 | for every port and every stream that it gets through: one line per sample, in order, with the contents of a valid sample, the key of a not-alive one that has it, and else the colour remembered by then |
| ShapeReader.JavaAcceptsIffStable | java/shape/ShapeMain.java:569-604 | no error is raised exactly when every handle kept one colour and every valid sample was in range |
| ShapeReader.NotAliveIsNamed | java/shape/ShapeMain.java:570-574 | a not-alive sample without key is printed with the colour of any earlier valid sample of its handle, with none if there was none |
| ShapeReader.CNotAliveIsNamed | c/shape/src/shape_main.c:773-789 | which colour the C port prints for a not-alive sample without a key |
| ShapeReader.CppNotAliveIsNamed | cpp/shape/src/shape_main.cpp:658-672 | which colour the C++ port prints for it |
| ShapeReader.PortsAgreeIff | c/shape/src/shape_main.c:773-806 | for one sample the C and Java handlers do the same exactly in the listed cases |
| ShapeReader.PortsAgree | c/shape/src/shape_main.c:762-818 | on streams with non-empty colours and no more handles than slots the C and Java ports print and fail alike |
| ShapeReader.CAcceptsIff | c/shape/src/shape_main.c:762-818 | for all streams: the C port gets through exactly when valid samples are in range, none pauses it, and samples of a remembered handle agree in colour, empty ones aside |
| ShapeReader.CMissesChangeIff | c/shape/src/shape_main.c:791-806 | for all streams: the C port accepts what the Java port rejects exactly when the stream is unstable and the array does not see it |
| ShapeReader.ColorChangeGoesUnseenIff | c/shape/src/shape_main.c:791-806 | from any cache, the C port accepts two colours of one handle exactly when the array is full or the first colour is empty |
| ShapeReader.CppAcceptsIff | cpp/shape/src/shape_main.cpp:570-675 | for all streams: the C++ port gets through exactly when the stream is stable, without pauses, and not spoilt by a look-up |
| ShapeReader.CppRejectsIff | cpp/shape/src/shape_main.cpp:570-675 | for all streams without pauses: the C++ port rejects what the Java port accepts exactly when a look-up has spoilt it |
| ShapeReader.CppLookupSpoilsIff | cpp/shape/src/shape_main.cpp:570-675 | from any map, after a look-up for a not-alive sample the C++ port alone rejects a valid sample exactly for unseen handles and non-empty colours |
| ShapeLink.PublishedIsAcceptedIff | java/shape/ShapeMain.java:577-592 | the samples of n iterations of any port's publisher, its colours cut or not, pass the reader's checks exactly when the configured sizes stay positive |
| Waitset.SplitTakesMatching | c/waitset/src/subscriber.c:272-273 | the query take returns the first matching samples, in order and as many as it may, and leaves the others |
| Waitset.SplitKeepsLabels | c/waitset/src/subscriber.c:268-273 | (step) the query take neither loses nor repeats a sample |
| Waitset.Reader.TakeWithCondition | c/waitset/src/subscriber.c:272-273 | (step) removes up to the given number of matching samples |
| Waitset.Reader.TakeAny | c/waitset/src/subscriber.c:279-280 | (step) removes the first samples, up to the given number |
| Waitset.PrintValid | c/waitset/src/subscriber.c:282-299 | prints each valid sample once, in order, under the label of its own priority |
| Waitset.AllMatching | c/waitset/src/subscriber.c:272-273 | (step) a queue in which all samples match is its own matching part |
| Waitset.NoneMatching | c/waitset/src/subscriber.c:272-273 | (step) a queue in which none matches has no matching part |
| Waitset.MatchingConcat | c/waitset/src/subscriber.c:272-273 | (step) matching parts follow the order of the queue |
| Waitset.LinesOfValid | c/waitset/src/subscriber.c:282-299 | (step) valid samples give one line each, in order, with the label that a priority above 4 decides |
| Waitset.LinesSkipInvalid | c/waitset/src/subscriber.c:282-299 | (step) invalid samples give no line |
| Waitset.DrainOnce | c/waitset/src/subscriber.c:254-299 | one drain with samples arriving between its two takes loses none of them, leaves only what exceeds one take, and prints the matching ones first |
| Waitset.HandleWake | c/waitset/src/subscriber.c:224-299 | what one return of the wait leads to: an error or the guard ends the loop, an active read or query condition drains the queue, anything else leaves it alone |
| Waitset.WaitOnce | c/waitset/src/subscriber.c:223-300 | one round of the loop keeps every arrived valid sample queued or printed, once, under its own label, and the queue within the backlog |
| Waitset.NoBacklog | c/waitset/src/subscriber.c:272-280 | (step) while no more samples have arrived than one take returns, a draining wait leaves nothing queued |
| Waitset.Receive | c/waitset/src/subscriber.c:216-300 | for any waits and arrivals: printed plus queued labels are those of the arrivals, no more is queued than the backlog, the loop completes at the first draining wait that prints enough, none being passed that was due to, and ends at the first wait that fails or finds the watchdog |
| Waitset.PublishBatch | c/waitset/src/publisher.c:207-219 | the batch numbers its samples and gives each its number as priority |
| Waitset.CompleteMeansAll | c/waitset/src/subscriber.c:223-302 | (step) when exactly the expected number is published, a completed loop has printed exactly the published labels and left nothing valid queued |
| Waitset.Exchange | c/waitset/src/subscriber.c:216-302 | publisher and subscriber together: a completed run has printed the line of every published sample exactly once, and it completes exactly at the first draining wait by which all have arrived, if no wait up to there fails |
| Waitset.QueueIsEmptyBefore | c/waitset/src/subscriber.c:223-280 | (step) under truthful conditions the queue is empty before each wait |
| Waitset.ExchangeTruthfully | c/waitset/src/subscriber.c:216-302 | when the read condition is active exactly while something is queued, and the query condition while something matches, the subscriber completes exactly when the whole batch comes in before an error or the watchdog |
| Waitset.BatchLabels | c/waitset/src/publisher.c:207-219 | (step) of the batch exactly the samples above the threshold deserve the high label, each once |
| Registry.Observer.TrackFor | c/registry/src/subscriber.c:51-57 | (step) finds the track of sensors 1 to 3, nothing else |
| Registry.Observer.AllInstancesDone | c/registry/src/subscriber.c:59-64 | (step) true exactly when all three tracks are terminal |
| Registry.Observer.Handle | c/registry/src/subscriber.c:92-140 | one sample does to the tracks, the flag and the look-up count what the specification says, or fails with it |
| Registry.Observer.OnDataAvailable | c/registry/src/subscriber.c:66-146 | one callback observes its whole batch, and stores all_done only after its last take, never when it fails |
| Registry.Observer.Deliver | c/registry/src/subscriber.c:66-146 | any division of the stream into callbacks has the same outcome as the undivided stream |
| Registry.TracksMeanStream | c/registry/src/subscriber.c:96-126 | the tracks are kept exactly on well-formed streams and say which lifecycles have occurred |
| Registry.TracksAreSeparate | c/registry/src/subscriber.c:51-57 | each track depends on its own sensor's samples alone |
| Registry.InterleavingMattersIff | c/registry/src/subscriber.c:77-141 | two interleavings of the same sensors' samples have the same outcome for every look-up exactly when they do not complete or sensor 3 has the same handle at completion |
| Registry.InterleavingKeepsOutcome | c/registry/src/subscriber.c:77-141 | when sensor 3 keeps its handle, acceptance, tracks, completion and look-ups do not depend on how the sensors interleave |
| Registry.OutcomeIsVerdict | c/registry/src/subscriber.c:128-140 | the look-up is made at most once, when the third lifecycle completes, and compared with the handle of sensor 3 at that sample |
| Registry.AcceptedIff | c/registry/src/subscriber.c:77-141 | a stream is accepted exactly when disposals are of sensor 1, lost writers of sensor 2, each after an alive, and the look-up agrees with the handle of sensor 3 at completion; completion is all three terminal events |
| Presence.Observer.constructor | c/presence/src/subscriber.c:147-151 | (step) starts at step 0 |
| Presence.Observer.OnLivelinessChanged | c/presence/src/subscriber.c:36-69 | step is the phase index and never decreases; the cycle is complete exactly when online, offline, online occurred in this order |
| Presence.Observer.OnAll | c/presence/src/subscriber.c:36-69 | the same after any sequence of callbacks |
| Presence.GreedyStep | c/presence/src/subscriber.c:46-68 | taking the next phase at the first chance always knows the longest part of the cycle seen so far |
| GuardModel.RoundUpIsMinimal | cpp/custom-allocator/src/noalloc_guard_preload.cpp:62-64 | (step) sizes are rounded to the least sufficient multiple of 16 |
| GuardModel.PaddedHoldsRequestIff | cpp/custom-allocator/src/noalloc_guard_preload.cpp:62-64 | the padded size holds the request exactly when size_t does not wrap around |
| GuardModel.CallsAreGood | cpp/custom-allocator/src/noalloc_guard_preload.cpp:57-171 | whatever a thread calls, nested calls included: regions stay in order and in the pool, nothing from it reaches the real free, the pool is left alone once calloc is known, and the thread enters trip at most once |
| GuardLookUps.NestedCall | cpp/custom-allocator/src/noalloc_guard_preload.cpp:113-120 | during a look-up with calloc unknown, the pool answers every call to calloc and no other call |
| GuardLookUps.ResolvingIsServed | cpp/custom-allocator/src/noalloc_guard_preload.cpp:76-85 | the calls to calloc that dlsym() makes are answered from the pool, all of them and in order, and afterwards all that dlsym() finds is known |
| GuardLookUps.PoolRetires | cpp/custom-allocator/src/noalloc_guard_preload.cpp:113-123 | once the real calloc is known no call reaches the pool |
| GuardThreads.ReportingPasses | cpp/custom-allocator/src/noalloc_guard_preload.cpp:87-96 | (step) diagnostics never trip again, however deeply they call |
| GuardThreads.KnownCall | cpp/custom-allocator/src/noalloc_guard_preload.cpp:107-166 | with the real functions known a call ends the process exactly when made while armed, on a thread that is not reporting, and not a release of NULL or bootstrap memory; every other release that returns reaches the real free |
| GuardThreads.KnownCalls | cpp/custom-allocator/src/noalloc_guard_preload.cpp:107-166 | the same for any sequence of calls: the real free gets exactly the releases of other pointers, in order |
| GuardThreads.CallThroughMissing | cpp/custom-allocator/src/noalloc_guard_preload.cpp:107-166 | which real function each kind of call needs |
| GuardThreads.FirstCall | cpp/custom-allocator/src/noalloc_guard_preload.cpp:107-166 | (step) with a well-behaved dlsym(), the first call of a process resolves the real functions and is then checked like any other |
| GuardThreads.ThreadAbortsIff | cpp/custom-allocator/src/noalloc_guard_preload.cpp:107-171 | with a well-behaved dlsym(), over any calls of a thread, its first ones included, the process aborts exactly when one of them is made while armed and is not a release of NULL or bootstrap memory; otherwise the real free gets exactly the other releases, in order; trip is entered at most once |
| GuardThreads.FreedBeforeAbort | cpp/custom-allocator/src/noalloc_guard_preload.cpp:87-166 | up to an abort the real free gets exactly the releases before it and then those of the diagnostics |
| NoAllocGuard.Guard.constructor | cpp/custom-allocator/src/noalloc_guard_preload.cpp:26-60 | (step) nothing known, nothing handed out, no thread in trip |
| NoAllocGuard.Guard.BootstrapCalloc | cpp/custom-allocator/src/noalloc_guard_preload.cpp:62-70 | a zeroed region in bounds behind all earlier ones at a multiple of 16, NULL exactly when empty or too large, and a write outside exactly when the end wraps around |
| NoAllocGuard.Guard.RegionsAreDisjoint | cpp/custom-allocator/src/noalloc_guard_preload.cpp:57-70 | bootstrap regions share no byte and lie in the pool |
| NoAllocGuard.Guard.CallocCall | cpp/custom-allocator/src/noalloc_guard_preload.cpp:113-122 | the code of calloc does what the model's dispatch between pool and real function says |
| NoAllocGuard.Guard.EnsureRealFns | cpp/custom-allocator/src/noalloc_guard_preload.cpp:76-85 | the code that resolves the four functions does what the model says, with every nested call of dlsym() |
| NoAllocGuard.Guard.Trip | cpp/custom-allocator/src/noalloc_guard_preload.cpp:87-96 | the code that reports does what the model says and leaves other threads alone |
| NoAllocGuard.Guard.Guarded | cpp/custom-allocator/src/noalloc_guard_preload.cpp:107-166 | the code of any call does what the model says, skips exactly the releases of NULL and of bootstrap memory, and leaves the flags of other threads alone |
| NoAllocGuard.Guard.RunCalls | cpp/custom-allocator/src/noalloc_guard_preload.cpp:107-171 | so does a sequence of calls, up to one that ends the process |

## Left out

* The middleware itself (discovery, reliability, QoS matching, quiescing of entities) and the
  generated typed readers and writers: not part of this repository.
* Entity creation, QoS, argument parsing, printing formats, signals, clocks and sleeps: plumbing;
  time-outs are failures that may happen at any poll.
* Overlap of delete_datareader() with a running catch-up callback: the programs allow it and rely
  on the middleware; a take after the deletion may find samples or none.
* Catch-up as classes with loops: the programs are modelled as a step system, because what matters
  is how their single loads and stores interleave.
* Samples with numbers that the publisher did not write: the subscriber fails on them.
* Two readers in one subscriber process, and several subscribers: the end-to-end statement follows
  one reader, other readers may only come and go while it is matched.
* The `-R` branches of the shape subscribers, the coherent read brackets, the waits for
  acknowledgement and the topic names: straight-line code around the modelled handlers.
* Which not-alive state a line names: the Java port always names one of the two, the others the
  sample's own.
* Signed overflow of the automatic size is undefined in C; the model wraps around, as the Java
  port does.
* Realloc of bootstrap memory reaches the real realloc, as in the code; what that does with it is
  not modelled. A call made through a function that dlsym() has not found ends the process.
* Calls of several threads while one of them is resolving: the state of the guard is changed by one
  call at a time.
* The wait phases of the waitset publisher and the registry and presence publishers: sequences of
  calls with the same gates.
* discovery, hello_world, participant-config, listener-pubsub, the OpenCV example, the Zig ports,
  scripts, interop tests and spikes.
