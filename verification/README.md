# What is proved about the RPC framework

The framework is a remote-procedure-call library in C++: a two-phase request/response protocol over UDP
(SR2P), a tagged binary serializer, a hierarchical timer wheel and a lock-free queue behind its thread
pool. This project models the four parts whose behaviour depends on many steps working together, and
proves what each is for.

`dafny verify dfyconfig.toml` checks everything.

`Bytes`, `Arithmetic` and `Wrappers` hold what the others share.

**The lock-free queue.** `FreeList`, `DequeueAccounting`, `BlockRing`, `Semaphore` and `BlockingQueue` are
step machines: any number of threads, one atomic access per step, sequentially consistent. A state is a
value, a run is a sequence of states, and every theorem is about every state of every run. Auxiliary
components (histories, owners of slots, phases of nodes) are written by the steps and never read by them.
`FreeListCalls`, `DequeueCalls` and `SemaphoreCalls` say what a call does for its caller. `DequeueAccounting` is the head/tail
arithmetic of the consumers alone; `BlockRing` runs it together with the producer, the circular list of blocks, the
block index and the slots. `BlockRingHistory` records what each `enqueue` was given and when it returned true, and
the theorems about results and order (`BlockRingTheorems`, `BlockRingOrder`) are about that record; `BlockRingReuse`
says when new memory is asked for. `BlockingQueue` runs the semaphore's steps inside the calls of the blocking
queue. `ImplicitIndex` is the block index of an implicit producer, a class over a table of shared entries.

**The serializer.** `Serializer` gives the encoding of a recursive type of values and the reading function,
`BinarySerializer` is the class that appends to a byte stream and moves a read position, and
`SerializerRoundTrip` proves that they invert each other. `SerializerReading` is about arbitrary bytes: which reads
are refused, and what a read that succeeds has found. `CallPatch` is the edit of the bytes of a call
that adds the caller's address to its arguments.

**The timer wheel.** `TimerWheel` is the class with its five arrays of buckets. `TimerWheelTheorems` bounds
when a timer runs and shows that it runs once; `TimerWheelPrecision` gives the exact tick on levels one and two;
`TimerWheelLevels` gives the window in which a timer of levels two to five runs, and the order within a bucket.

**SR2P.** `Protocol` is the 26-byte header, `Pieces` the bitmaps and buffers of both sides, `SubReactor` the
server, `Invoker` the client, `Middleware` the chain of services. `Sr2p` puts a client, the server's slot for
its message, and growing sets of sent packets into one step machine: a packet once sent can be received
never, once or many times, in any order, on either of the server's receive paths. `Sr2pHandOver` says when the
handler is given the message, `CallOutcomes` when a call ends and with what. `WindowProgress` is about rounds in
which nothing is lost, `WindowStalls` finds those rounds in the runs, and `CallSuccess` follows a call through such a
run to its result.

Where the source changes an object in place there is a class, and each method's contract equates the new
state with a function of the old one; the theorems are about those functions. The step machines use the same
functions: `Sr2p` is built from `SubReactor.Receive`, `Invoker.EnterRound` and `Invoker.OnEvent`, which the
methods of the two classes are proved against.

## Findings

Properties that hold only under a condition, each with the exact condition:

- A stream whose capacity is zero (a moved-from one) can never be expanded: `ExpansionEnds`.
- The patch raises the argument count without the limit of 64 in mind, so a call with 63 or 64 arguments of its
  own becomes one that reading refuses: `PatchedCallReadable`.
- For an empty message phase one is skipped and the client waits for a response to a request it never sent:
  `PhaseTwoWithoutRecord`.
- No call on an empty message succeeds, because no record is made for it, and none whose result is empty, because a
  response of no piece is never sent: when the handler computes one result, a call can succeed if and only if
  neither is empty, `SuccessIffNotEmpty`.
- A loss-free round brings the client nothing in exactly two cases: the record's prefix ends before the window,
  because the record expired and was begun again after the client had been acknowledged, or the whole window was
  there and every packet came on the new-connection path, which acknowledges a duplicate with 0:
  `CleanRoundProgress`. Both occur in runs (`ClientGetsAhead`, `ClientMeetsDuplicates`). The first lasts for good,
  the second as long as packets keep to that path: every further clean round resets the tries and leaves the
  client where it is (`BehindForGood`, `DuplicatesForGood`, `StalledRun`).
- A failed read leaves the position where it was, except for a byte array where one of another length stands and
  for a class where the tag of a class stands: `RollBack`, with the inputs `OtherLengthStays` and `CutClassStays`.
- A string or byte array cut short is read past the end of the stream if and only if at most five bytes are
  missing, all of the payload: `CutShort`. The comment at `include/serializer/binarySerializer.cpp:363` says that
  what is left is compared with the length; the code measures it from the tag and not from the payload.
- A timer that passes through level two and is due at the last tick of a turn runs one tick early:
  `RunsAtDueTick`.
- Insertion into levels three to five masks the due tick as for level two, so a timer there can run at its due tick
  only if two parts of the due tick agree (level three) or one part is zero (levels four and five):
  `DueTickInWindow`. Added at tick 0, a timer due after 0x4000 ticks has not run after 0xFFFFF of them, and one due
  after 0x8100 has run after 0x7FFF: `FarOff`.

## Model

| member | source | states |
|---|---|---|
| `FreeList.NoDoubleHandOut` | dependency/concurrent_queue/concurrentqueue.h:1459-1538 | in every interleaving of any number of `add` and `try_get` calls, between two hand-outs of a node there is an `add` of it |
| `FreeList.NoAba` | dependency/concurrent_queue/concurrentqueue.h:1473-1490 | whenever the head swap of `try_get` is about to succeed, the successor read earlier is still the node's successor, the node is first on the list and nowhere else on it, and the swap leaves exactly the rest of the list |
| `FreeList.FlagOffAfterSwap` | dependency/concurrent_queue/concurrentqueue.h:1488-1494 | the assertion in the code: after a successful swap the should-be-on-list flag of the node is off |
| `FreeList.ReferenceCount` | dependency/concurrent_queue/concurrentqueue.h:1466-1506 | the masked count is 1 if the list counts the node, plus the number of `try_get` calls holding it; the flag is up exactly while the node waits for its last reference or for being linked |
| `FreeList.ListShape` | dependency/concurrent_queue/concurrentqueue.h:1516-1538 | following `freeListNext` from the head never repeats a node and meets exactly the linked nodes |
| `FreeList.Conservation` | dependency/concurrent_queue/concurrentqueue.h:1459-1538 | when no call is under way, a node is on the list if and only if the history of calls says it was added and not taken since, and its count is 1 or 0 accordingly |
| `FreeList.RunInv` | dependency/concurrent_queue/concurrentqueue.h:1459-1538 | the invariant behind these (counts, phases, successor validity, list shape, alternation of add and take) holds in every state of every run |
| `FreeListCalls.NothingOnlyIfEmpty` | dependency/concurrent_queue/concurrentqueue.h:1473-1510 | in every run a `try_get` that ends without a node met an empty list: in some state of that very call nothing was on it |
| `FreeListCalls.LoneTryGet` | dependency/concurrent_queue/concurrentqueue.h:1473-1510 | when every call has returned and the list is not empty, the accesses of one `try_get` alone return the first node and leave the rest |
| `FreeListCalls.LoneAdd` | dependency/concurrent_queue/concurrentqueue.h:1459-1538 | when every call has returned, the accesses of one `add` alone put the node in front of the list |
| `FreeListCalls.EndsAt` | dependency/concurrent_queue/concurrentqueue.h:1473-1510 | in any step that ends a `try_get` the call returns the node it has swapped out, or its local head was null |
| `DequeueAccounting.HeadNeverPassesTail` | dependency/concurrent_queue/concurrentqueue.h:1954-2052 | with any number of consumers and any mix of `dequeue` and `dequeue_bulk`, the head never passes the tail |
| `DequeueAccounting.EachIndexTakenOnce` | dependency/concurrent_queue/concurrentqueue.h:2247-2269 | every index below the head had been enqueued and was granted to exactly one call |
| `DequeueAccounting.QuiescentCounts` | dependency/concurrent_queue/concurrentqueue.h:1961-2052 | when no consumer is in a call, optimistic count = head + overcommit: every slot lost was paid back |
| `DequeueAccounting.LoneCallTakesAll` | dependency/concurrent_queue/concurrentqueue.h:2247-2269 | a call that runs alone from such a state takes exactly the smaller of its maximum and what is there, the next indices in order |
| `DequeueAccounting.DueBehindTail` | dependency/concurrent_queue/concurrentqueue.h:1979-2003 | at the moment a consumer advances the head, the indices it takes have been enqueued |
| `DequeueAccounting.RunInv` | dependency/concurrent_queue/concurrentqueue.h:1954-2052 | each optimistic slot is undecided, won, lost, taken or paid back, consistently with the counters and with what each thread read earlier, in every state of every run |
| `DequeueCalls.TakesWhatIsUnclaimed` | dependency/concurrent_queue/concurrentqueue.h:1954-2052 | in every run a call takes at most what it asked for, and less only if in its course all other elements were claimed: what was there in one of its states is no more than what it takes and the claims of a later one that had not been given back before; so it returns with nothing only if every element was claimed |
| `DequeueCalls.ClaimsAre` | dependency/concurrent_queue/concurrentqueue.h:1961-2001 | those claims are the elements due to calls, the claims still open, and the ones that found nothing and had not been given back |
| `BlockRingTheorems.UnconsumedIsFound` | dependency/concurrent_queue/concurrentqueue.h:2003-2017 | in every run, for every index header a consumer may hold that is new enough, the block-index arithmetic leads from the header's front to the entry whose base is the element's block and to a slot that still holds the argument of that `enqueue` |
| `BlockRingTheorems.CurrentReachesAll` | dependency/concurrent_queue/concurrentqueue.h:2003-2017 | the header a consumer loads now is new enough for everything enqueued so far |
| `BlockRingTheorems.ReusedBlockWasConsumed` | dependency/concurrent_queue/concurrentqueue.h:1857-1867 | a block whose flags are being reset for another round holds no element that has not been consumed |
| `BlockRingReuse.NewBlockOnlyIfInUse` | dependency/concurrent_queue/concurrentqueue.h:1857-1881 | in every run an `enqueue` turns to a new block only if the ring is empty or the block ahead holds an element that has not been consumed: an emptied block is always reused |
| `BlockRingReuse.RunRaised` | dependency/concurrent_queue/concurrentqueue.h:1584-1606 | in every state of every run each consumed element of the ring has its empty flag up |
| `BlockRingReuse.MarksOnce` | dependency/concurrent_queue/concurrentqueue.h:1594-1625 | the assertion in the code: in every run the empty flag a consumer sets is still down |
| `BlockRingTheorems.OverwritesNothingLive` | dependency/concurrent_queue/concurrentqueue.h:1848-1952 | the slot the producer is about to fill is not the slot of an element that is still to be read |
| `BlockRingTheorems.NeverStuck` | dependency/concurrent_queue/concurrentqueue.h:1848-2052 | every access of the producer and of each consumer is in bounds and meets an initialised entry, block and slot, whatever the others do |
| `BlockRingTheorems.RoomTestPasses` | dependency/concurrent_queue/concurrentqueue.h:1872-1880 | the test of head against tail never turns an enqueue away |
| `BlockRingHistory.ItemsAreEnqueued` | dependency/concurrent_queue/concurrentqueue.h:1848-1952 | in every run, what is published is the sequence of the arguments of the `enqueue` calls that returned true, in order |
| `BlockRingHistory.PublishesArgument` | dependency/concurrent_queue/concurrentqueue.h:1940-1951 | a step publishes something exactly when it ends a call with true, and then it appends the argument of that call |
| `BlockRingHistory.ArgumentKept` | dependency/concurrent_queue/concurrentqueue.h:1848-1952 | wherever the call has got to, the value it works with is the argument it was given |
| `BlockRingHistory.FailsForMemoryOnly` | dependency/concurrent_queue/concurrentqueue.h:1883-1903 | an `enqueue` returns false only where a larger index or a new block could not be had, and publishes nothing |
| `BlockRingHistory.EnqueueEnds` | dependency/concurrent_queue/concurrentqueue.h:1848-1952 | an `enqueue` that has not returned has made fewer than 74 steps |
| `BlockRingHistory.DequeueEnds` | dependency/concurrent_queue/concurrentqueue.h:2003-2052 | a consumer with a share can always make a step, and each of its steps brings its return nearer, whatever the others do |
| `BlockRingTheorems.ResultsAreRuns` | dependency/concurrent_queue/concurrentqueue.h:2271-2338 | what a finished `dequeue` or `dequeue_bulk` returned is a run of consecutive arguments of the `enqueue` calls that returned true, unchanged and in order |
| `BlockRingTheorems.EachElementReturnedOnce` | dependency/concurrent_queue/concurrentqueue.h:1954-2338 | no element is returned by two calls, and once every call has returned each element below the head was returned by one, as the argument of the `enqueue` that put it there |
| `BlockRingOrder.FifoOrder` | dependency/concurrent_queue/concurrentqueue.h:1848-2338 | whenever every `dequeue` has returned, the values read out of the slots by all calls, put together in the order of their places, are exactly the arguments of the first `enqueue` calls that returned true, in their order |
| `BlockRingOrder.LaterCallLaterElements` | dependency/concurrent_queue/concurrentqueue.h:1954-2338 | if one call has returned before another is given its share, every element the other returns was enqueued after every element of the one |
| `BlockRingProof.RunInv` | dependency/concurrent_queue/concurrentqueue.h:1848-2393 | the invariant tying ring, flags, index headers, slots, accounting and program counters holds in every state of every run |
| `BlockRingProof.RingReuse` | dependency/concurrent_queue/concurrentqueue.h:1857-1867 | moving on to the next block of the circle keeps the circle and makes the oldest block the newest |
| `BlockRingProof.RingLink` | dependency/concurrent_queue/concurrentqueue.h:1903-1912 | linking a new block behind the tail block keeps the circle and adds exactly that block |
| `BlockRingProof.GrowIndexStep` | dependency/concurrent_queue/concurrentqueue.h:2356-2393 | doubling the block index keeps the invariant: the entries are unrolled so that every used block is found in the new header, and older headers stay valid for their elements |
| `BlockRingProof.ReuseStep` | dependency/concurrent_queue/concurrentqueue.h:1857-1867 | when the look-ahead finds all flags up, every element of that block has been consumed and taking it keeps the invariant |
| `BlockRingProof.SlotDistinct` | dependency/concurrent_queue/concurrentqueue.h:2003-2017 | two block numbers less than the index size apart never share a slot |
| `Semaphore.NeverOverIssued` | dependency/concurrent_queue/lightweightsemaphore.h:278-418 | permits taken plus permits available never exceed the initial count plus what was signalled, and no call gets more than it asked for |
| `Semaphore.UnservedWaiters` | dependency/concurrent_queue/lightweightsemaphore.h:278-355 | in every state, the waiters that no post has been made or promised for number exactly max(0, -m_count), timeouts included |
| `Semaphore.NoLostWakeUp` | dependency/concurrent_queue/lightweightsemaphore.h:409-418 | while no signal is half done: if the count is not negative each waiter has a post waiting for it, and if there is no post the count is minus the number of waiters |
| `Semaphore.SignalReachesWaiter` | dependency/concurrent_queue/lightweightsemaphore.h:409-418 | a signal of n made while a thread sleeps unserved goes on to post between 1 and n times |
| `Semaphore.QuiescentBalance` | dependency/concurrent_queue/lightweightsemaphore.h:278-418 | when no call is under way, initial + signalled = taken + m_count, and no post is left over |
| `Semaphore.StepExchanges` | dependency/concurrent_queue/lightweightsemaphore.h:278-418 | every single access, successful or failed or spurious, exchanges count, posts, permits and waiters so that the two sums stay equal |
| `Semaphore.RunInv` | dependency/concurrent_queue/lightweightsemaphore.h:278-418 | the balance of count, posts, waiters and permits holds in every state of every run |
| `Semaphore.TakesSmaller` | dependency/concurrent_queue/lightweightsemaphore.h:379-390 | in every run, an attempt of `tryWaitMany` that returns has in that access taken the smaller of what was asked for and what was there, and one that goes on has taken nothing |
| `Semaphore.LoneTryWaitMany` | dependency/concurrent_queue/lightweightsemaphore.h:379-390 | alone, `tryWaitMany` returns the smaller of its maximum and max(0, m_count) and lowers the count by it |
| `SemaphoreCalls.LoneWaitTakes` | dependency/concurrent_queue/lightweightsemaphore.h:393-400 | alone and with permits there, `waitMany` returns the smaller of what is asked for and what is there |
| `SemaphoreCalls.LoneWaitFinds` | dependency/concurrent_queue/lightweightsemaphore.h:316-341 | alone and without permits, after any number of spins a poll returns 0 and leaves the semaphore as it was, and a call that may wait lowers the count by one and sleeps |
| `SemaphoreCalls.LoneWakes` | dependency/concurrent_queue/lightweightsemaphore.h:341-349 | a sleeper that is posted to returns with one permit and as many more as it wants and finds |
| `SemaphoreCalls.LoneReadjust` | dependency/concurrent_queue/lightweightsemaphore.h:334-341 | a waiter whose wait failed takes the post meant for it, if there is one, and otherwise puts the count back and returns 0 |
| `BlockingQueue.ElementsAccounted` | dependency/concurrent_queue/blockingconcurrentqueue.h:123-130 | the elements present are exactly the permits held, available, posted, promised, or still to be signalled for |
| `BlockingQueue.HoldersNeverOutnumberElements` | dependency/concurrent_queue/blockingconcurrentqueue.h:326-386 | a thread that got its permits and retries the dequeue always has that many elements present beside those of all others, so the retry loop waits for elements that exist |
| `BlockingQueue.QuiescentCount` | dependency/concurrent_queue/blockingconcurrentqueue.h:293-303 | when no call is under way, the semaphore's count is the number of elements |
| `BlockingQueue.RunInv` | dependency/concurrent_queue/blockingconcurrentqueue.h:123-386 | the account of elements and permits, and the semaphore's own invariant, hold in every state of every run |
| `ImplicitIndex.FoundUntilReleased` | dependency/concurrent_queue/concurrentqueue.h:2900-3008 | through any sequence of insertions, rewinds, releases in any order, growth and roll-backs, as long as a block is live its entry holds its base and the same block, and every slot that has ever been the tail leads to it |
| `ImplicitIndex.NextOk` | dependency/concurrent_queue/concurrentqueue.h:2900-3008 | each operation keeps the index well formed and changes no live block's entry |
| `ImplicitIndex.FullTurn` | dependency/concurrent_queue/concurrentqueue.h:2907-2921 | the slot after the tail is occupied only by the live block a full turn older |
| `ImplicitIndex.LookupSlot` | dependency/concurrent_queue/concurrentqueue.h:2947-2964 | the offset computed from any used slot's key arrives at the slot of the block sought, across wrap-around |
| `ImplicitIndex.GrowOk` | dependency/concurrent_queue/concurrentqueue.h:2966-3008 | doubling the table keeps it well formed, leaves a fresh slot after the tail and puts the tail at the end of the old half |
| `ImplicitIndex.InsertOk` | dependency/concurrent_queue/concurrentqueue.h:2900-2916 | claiming a free slot after the tail keeps the index well formed |
| `ImplicitIndex.CancelOk` | dependency/concurrent_queue/concurrentqueue.h:2935-2939 | rewinding the tail undoes a claim |
| `ImplicitIndex.ReleaseOk` | dependency/concurrent_queue/concurrentqueue.h:2599-2606 | clearing the entry of any live block, in any order, keeps the index well formed |
| `ImplicitIndex.RollBackOk` | dependency/concurrent_queue/concurrentqueue.h:2661-2679 | taking back the newest blocks of a failed bulk insertion keeps the index well formed |
| `ImplicitIndex.Index.constructor` | dependency/concurrent_queue/concurrentqueue.h:2966-3008 | the first table: nothing live, the tail just before slot 0 |
| `ImplicitIndex.Index.CopyTable` | dependency/concurrent_queue/concurrentqueue.h:2984-2993 | the new table starts with the old entries, oldest first, shared and not copied |
| `ImplicitIndex.Index.NewBlockIndex` | dependency/concurrent_queue/concurrentqueue.h:2966-3008 | a failed allocation changes nothing; otherwise the capacity doubles, the old entries are shared and the new ones are fresh |
| `ImplicitIndex.Index.MakeRoom` | dependency/concurrent_queue/concurrentqueue.h:2909-2927 | succeeds if and only if the slot after the tail is free or the table may and can grow, and then that slot is free; otherwise nothing changed |
| `ImplicitIndex.Index.Insert` | dependency/concurrent_queue/concurrentqueue.h:2900-2933 | success under the same condition claims the entry at the tail with the block's base as key, no live block changes, and failure changes nothing |
| `ImplicitIndex.Index.Publish` | dependency/concurrent_queue/concurrentqueue.h:2532-2535 | the claimed entry gets its block and only that block becomes live |
| `ImplicitIndex.Index.Cancel` | dependency/concurrent_queue/concurrentqueue.h:2507-2512 | when no block can be had the tail goes back and the entry is cleared |
| `ImplicitIndex.Index.LookupFrom` | dependency/concurrent_queue/concurrentqueue.h:2947-2964 | from any slot the tail has pointed at, the entry found has the element's block base as its key and that block as its value |
| `ImplicitIndex.Index.Lookup` | dependency/concurrent_queue/concurrentqueue.h:2941-2964 | the same from the present tail, for any element of a live block |
| `ImplicitIndex.Index.Release` | dependency/concurrent_queue/concurrentqueue.h:2599-2606 | the entry of the emptied block is cleared and every other one is left alone |
| `ImplicitIndex.Index.RollBack` | dependency/concurrent_queue/concurrentqueue.h:2661-2679 | the loop that finds, clears and rewinds block by block takes back exactly the blocks of the failed call, though each look-up starts from a tail that is already rewound |
| `BinarySerializer.ExpansionEnds` | include/serializer/binarySerializer.cpp:60-69 | the doubling loop ends if and only if the capacity is positive or nothing is needed |
| `BinarySerializer.BinarySerializer.constructor` | include/serializer/binarySerializer.cpp:46-49 | an empty stream at position 0 with the default capacity |
| `BinarySerializer.BinarySerializer.Expansion` | include/serializer/binarySerializer.cpp:60-69 | room for the bytes, with the fewest doublings that give it |
| `BinarySerializer.BinarySerializer.Write` | include/serializer/binarySerializer.cpp:71-79 | appends the bytes and changes nothing before them |
| `BinarySerializer.BinarySerializer.InputScalar` | include/serializer/binarySerializer.cpp:105-180 | appends the encoding of the scalar |
| `BinarySerializer.BinarySerializer.InputBlob` | include/serializer/binarySerializer.cpp:182-245 | appends the encoding of a string or byte array exactly when it is within its limit, and otherwise leaves the stream alone |
| `BinarySerializer.BinarySerializer.InputList` | include/serializer/binarySerializer.h:120-184 | appends the encoding of a vector, array, list or set exactly when it and its elements are within their limits; otherwise the old stream is still a prefix |
| `BinarySerializer.BinarySerializer.InputMap` | include/serializer/binarySerializer.h:186-228 | the same for a map or hash map |
| `BinarySerializer.BinarySerializer.InputTuple` | include/serializer/binarySerializer.h:251-281 | the same for a tuple; the empty tuple writes nothing |
| `BinarySerializer.BinarySerializer.InputClass` | include/serializer/binarySerializer.h:707-712 | the same for a class: its tag and then its fields |
| `BinarySerializer.BinarySerializer.Input` | include/serializer/binarySerializer.h:120-281 | the same for any nested value |
| `BinarySerializer.BinarySerializer.OutputScalar` | include/serializer/binarySerializer.cpp:251-334 | reads what the decoding function reads, and the position ends where it says |
| `BinarySerializer.BinarySerializer.OutputString` | include/serializer/binarySerializer.cpp:336-374 | the same for a string, with the code's order of checks |
| `BinarySerializer.BinarySerializer.OutputBuffer` | include/serializer/binarySerializer.cpp:376-458 | the same for a byte array of a given length |
| `BinarySerializer.BinarySerializer.OutputElements` | include/serializer/binarySerializer.h:344-350 | the loop inside the `try` reads what the recursive function reads, element by element |
| `BinarySerializer.BinarySerializer.OutputList` | include/serializer/binarySerializer.h:310-517 | a vector, array, list or set reads as the recursive function, with the position restored when an element throws |
| `BinarySerializer.BinarySerializer.OutputEntries` | include/serializer/binarySerializer.h:550-558 | the loop inside the `try` reads what the recursive function reads; a repeated key overwrites |
| `BinarySerializer.BinarySerializer.OutputMap` | include/serializer/binarySerializer.h:520-625 | a map or hash map reads as the recursive function, with the position restored when a pair throws |
| `BinarySerializer.BinarySerializer.OutputTuple` | include/serializer/binarySerializer.h:635-683 | the same over the parts of a tuple |
| `BinarySerializer.BinarySerializer.OutputArgs` | include/serializer/binarySerializer.h:627-633 | field after field, with no restoring of its own |
| `BinarySerializer.BinarySerializer.Output` | include/serializer/binarySerializer.h:310-683 | reading any type from any stream at any position is the decoding function, including every failure and where the position is left |
| `SerializerRoundTrip.RoundTrip` | include/serializer/binarySerializer.h:310-683 | every nested value within the limits, written between any bytes, reads back as itself and reading stops exactly at its end |
| `SerializerRoundTrip.ReadBack` | include/serializer/binarySerializer.h:120-281 | the same wherever the encoding stands in a stream, by induction over types and values |
| `SerializerRoundTrip.PrefixFree` | include/serializer/binarySerializer.h:120-281 | no encoding of a type is a proper prefix of another one of that type, and equal encodings mean equal values |
| `SerializerRoundTrip.OrderDoesNotMatter` | include/serializer/binarySerializer.h:210-228 | whatever order a hash map is iterated in, the same map is read back from the same number of bytes |
| `SerializerRoundTrip.MapOfHolds` | include/serializer/binarySerializer.h:520-625 | with distinct keys, the map built by successive assignment holds exactly the entries |
| `SerializerRoundTrip.RollBack` | include/serializer/binarySerializer.h:310-683 | on any bytes, a read that throws leaves the position where it was, if and only if it is not for a byte array where one of another legal length stands, and not for a class where the tag of a class stands |
| `SerializerRoundTrip.OtherLengthStays` | include/serializer/binarySerializer.cpp:402-404 | the input that shows it: one byte written and two asked for leaves the position behind the tag |
| `SerializerRoundTrip.CutClassStays` | include/serializer/binarySerializer.h:714-722 | the input that shows it for a class, and that a tuple around the class puts the position back |
| `SerializerRoundTrip.CutShort` | include/serializer/binarySerializer.cpp:363-369 | a string or byte array whose last k bytes are missing, behind any bytes, is read past the end of the stream if and only if k is at most 5 and at most the payload; otherwise the read throws and stays put |
| `SerializerRoundTrip.ScalarTrip` | include/serializer/binarySerializer.cpp:105-180 | round trip of the eleven scalar kinds, signed ones through two's complement |
| `SerializerRoundTrip.BlobTrip` | include/serializer/binarySerializer.cpp:336-458 | round trip of strings and of byte arrays read with the length they were written with |
| `SerializerRoundTrip.ListTrip` | include/serializer/binarySerializer.h:310-517 | round trip of vectors, arrays, lists and sets |
| `SerializerRoundTrip.MapTrip` | include/serializer/binarySerializer.h:520-625 | round trip of maps and hash maps |
| `SerializerRoundTrip.TupleTrip` | include/serializer/binarySerializer.h:635-683 | round trip of tuples, the empty one included |
| `SerializerReading.OtherTypeRefused` | include/serializer/binarySerializer.cpp:10-18 | a value of one type, anywhere in a stream, is never read as a type with another tag: the read throws and stays where it was, for a wrong type when enough bytes are left |
| `SerializerReading.ReadIsTyped` | include/serializer/binarySerializer.h:310-683 | on any bytes, a read that succeeds yields a value of its type within all limits |
| `SerializerReading.FoundItsTag` | include/serializer/binarySerializer.cpp:10-18 | on any bytes, a read that does not throw stands at the tag of its own type |
| `SerializerReading.ReadIsWritten` | include/serializer/binarySerializer.h:310-683 | on any bytes, for types without bool, set and map, the bytes a successful read consumes are the encoding of the value it returns |
| `SerializerReading.TagsApart` | include/serializer/binarySerializer.cpp:10-18 | types that differ in more than their parts have different tags |
| `Serializer.RawRoundTrip` | include/serializer/binarySerializer.cpp:126-180 | the two's-complement pattern of an in-range scalar determines it |
| `Bytes.LittleEndianRoundTrip` | include/serializer/binarySerializer.cpp:126-166 | the bytes of a number in memory order give it back |
| `CallPatch.PatchExtendsArguments` | include/rpc/server/sub_reactor.cpp:598-651 | appending address and port and raising the count in place (or appending a new tuple) gives byte for byte the encoding of the name followed by the argument tuple extended by the two values |
| `CallPatch.PatchedCallReadable` | include/rpc/server/sub_reactor.cpp:598-651 | the patched call reads back as the extended tuple for up to 62 arguments, and is refused for its count above that |
| `CallPatch.Prepare` | include/rpc/server/sub_reactor.cpp:593-653 | the bytes handed to the router are the patched call if the name starts with the prefix and the call unchanged if not; an unreadable name fails; the input is never written to |
| `CallPatch.Concatenate` | include/rpc/server/sub_reactor.cpp:615-622 | the two copies fill a fresh buffer with the call and what is appended |
| `CallPatch.DeserializeView.OutputString` | include/serializer/binaryDeserializeView.cpp:160-198 | reading a string from a view is the same decoding function as reading it from a stream |
| `TimerWheelTheorems.FiresExactlyOnce` | include/timer/timer_wheel.cpp:33-98 | whatever the clock reads at each tick and whatever else is added or cancelled, a timer that is not cancelled runs at most once, and exactly once when Bound(delay) ticks have passed, across the wrap of the 32-bit tick |
| `TimerWheelTheorems.CancelledNeverRuns` | include/timer/timer_wheel.cpp:292-294 | after `clearTimeout` a timer never runs again, wherever it stood, whatever the clock shows and whatever is added or cancelled later |
| `TimerWheelTheorems.BoundValue` | include/timer/timer_wheel.cpp:33-98 | that bound is below 2^32 + 2^26 ticks for every delay |
| `TimerWheelTheorems.TickTotal` | include/timer/timer_wheel.cpp:102-278 | a tick loses and doubles nothing: a timer ran as often as its copies in the wheel went down |
| `TimerWheelTheorems.TickWithin` | include/timer/timer_wheel.cpp:102-278 | a tick brings every timer that does not run one tick closer |
| `TimerWheelTheorems.CascadedStep` | include/timer/timer_wheel.cpp:127-241 | handing a bucket down never lengthens what is left and leaves no due timer behind |
| `TimerWheelTheorems.InsertedPlace` | include/timer/timer_wheel.cpp:33-98 | an inserted timer stands once in the wheel, within the bound |
| `TimerWheelPrecision.RunsAtDueTick` | include/timer/timer_wheel.cpp:33-65 | with an ideal clock and at most 0x3F00 ticks to go, a timer runs exactly at its due tick d, or at d - 1 if it goes through level two and d mod 256 is 255, and at no other tick |
| `TimerWheelPrecision.TickAimed` | include/timer/timer_wheel.cpp:212-276 | a tick of the ideal clock keeps every such timer aimed at that tick, and runs it only then |
| `TimerWheelPrecision.TargetOnTime` | include/timer/timer_wheel.cpp:212-241 | level two hands a timer down into the level-one bucket that is its due tick away, limited by the mask |
| `TimerWheelLevels.RunsInWindow` | include/timer/timer_wheel.cpp:33-98 | whatever the clock reads and whatever else is added or cancelled, a timer put on level two or above does not run before its bucket is due, and has run exactly once when one unit of that level has passed since |
| `TimerWheelLevels.DueTickInWindow` | include/timer/timer_wheel.cpp:49-98 | for every tick and delay, that window contains the due tick if and only if the stated condition on the two holds |
| `TimerWheelLevels.FarOff` | include/timer/timer_wheel.cpp:66-76 | the inputs that show how far off a timer can be, late and early, in any sequence of events |
| `TimerWheelLevels.HandedDownFor` | include/timer/timer_wheel.cpp:127-241 | handed down, a timer waits exactly for the whole units that are left of its delay, modulo a turn, or on level one for the ticks that are left, at most 255 |
| `TimerWheelLevels.RunInOrder` | include/timer/timer_wheel.cpp:242-275 | two timers of a bucket that are not cancelled run in the order in which they stand in it |
| `TimerWheelLevels.HandedDownInOrder` | include/timer/timer_wheel.cpp:212-241 | handing down appends to each bucket below, in their order, exactly the timers that are not cancelled and go there |
| `TimerWheelProof.MovesAtUnit` | include/timer/timer_wheel.cpp:102-127 | the nested mask tests say that a level moves exactly when the ticks counted are a whole number of its units |
| `TimerWheelProof.WaitGoesDown` | include/timer/timer_wheel.cpp:102-278 | each tick shortens the wait of each bucket by one until it is due, across the wrap of the counter |
| `TimerWheelProof.MovesWhenDue` | include/timer/timer_wheel.cpp:127-241 | the bucket that is handed down is exactly the one with no more wait |
| `TimerWheelProof.TargetWithinUnit` | include/timer/timer_wheel.cpp:127-241 | what is handed down is due within the unit it came from, whatever the clock reads |
| `TimerWheel.TimerWheel.constructor` | include/timer/timer_wheel.cpp:100-102 | five empty levels at tick 0 |
| `TimerWheel.TimerWheel.SetTimerWheelTask` | include/timer/timer_wheel.cpp:33-98 | the timer is appended to the one bucket the branch on the delay chooses, every other bucket is unchanged |
| `TimerWheel.TimerWheel.Cascade` | include/timer/timer_wheel.cpp:212-241 | the loop over a bucket moves each timer that is not cancelled to its target below, in order, and empties the bucket |
| `TimerWheel.TimerWheel.Execute` | include/timer/timer_wheel.cpp:242-275 | runs the timers of the bucket under the hand that are not cancelled, in order, and empties it |
| `TimerWheel.TimerWheel.Tick` | include/timer/timer_wheel.cpp:102-278 | one round of the loop: the levels are handed down from the top, the tick advances with wrap, and what ran is the fired sequence |
| `Protocol.ParseEncoded` | include/rpc/protocol/protocol.cpp:54-143 | parsing a header written by the header writer gives its fields, whatever follows |
| `Protocol.EncodeParsed` | include/rpc/protocol/protocol.cpp:54-143 | anything that parses is the encoding of what it parses to: no two headers parse alike |
| `Protocol.PiecesTile` | include/rpc/client/invoker.cpp:65-92 | the pieces cut a message of any size without gap or overlap |
| `Protocol.Initiate` | include/rpc/protocol/protocol.cpp:9-52 | succeeds if and only if the size allows a header, then writes the 26 bytes of a fresh one and no others |
| `Protocol.SetProtocolType` | include/rpc/protocol/protocol.cpp:230-265 | changes the type of the header in the buffer and nothing else |
| `Protocol.SetProtocolPhase` | include/rpc/protocol/protocol.cpp:317-334 | changes the phase, which shares a byte with the type, and nothing else |
| `Protocol.SetProtocolOrderAndSize` | include/rpc/protocol/protocol.cpp:293-303 | changes order and size and nothing else |
| `Protocol.SetACKAcceptOrder` | include/rpc/protocol/protocol.cpp:305-315 | changes the acknowledgement and nothing else |
| `Pieces.AckIsLongest` | include/rpc/server/request.cpp:82-91 | n pieces from the start are all there if and only if n is at most the acknowledgement number |
| `Pieces.AckGrows` | include/rpc/server/request.cpp:72-91 | more pieces never lower the acknowledgement number |
| `Pieces.AgreeingStore` | include/rpc/server/sub_reactor.cpp:120-124 | storing a true piece and setting its bit keeps the buffer in agreement with the message at every set bit |
| `Pieces.FullBuffer` | include/rpc/server/sub_reactor.cpp:149-155 | when the acknowledgement number is the piece count, the buffer is the message |
| `Pieces.FirstMissing` | include/rpc/server/request.cpp:82-91 | the loop finds the longest prefix |
| `Pieces.Request.constructor` | include/rpc/server/request.cpp:39-45 | no piece is there and the record has not been triggered |
| `Pieces.Request.SetPieceState` | include/rpc/server/request.cpp:72-80 | any index: below the count it sets exactly that bit and answers the new prefix, above it throws and changes nothing, equal to it goes past the bitmap |
| `Pieces.Request.GetAckNumber` | include/rpc/server/request.cpp:82-91 | the length of the longest prefix |
| `Pieces.ResponseData.Initialize` | include/rpc/client/response_data.cpp:50-66 | the first call sizes bitmap and buffer, every later one has no effect |
| `Pieces.ResponseData.SetPieceState` | include/rpc/client/response_data.cpp:68-76 | the same for the client's bitmap, also before it is sized |
| `Pieces.ResponseData.GetAckNumber` | include/rpc/client/response_data.cpp:113-122 | the length of the longest prefix |
| `Pieces.Response.constructor` | include/rpc/server/response.cpp:21-32 | nothing acknowledged yet, the last piece's size from the total |
| `Pieces.Response.SetAckAccept` | include/rpc/server/response.cpp:75-81 | the acknowledgement only ever goes up, and the answer says whether it did |
| `SubReactor.SubReactor.Loop` | include/rpc/server/sub_reactor.cpp:105-235 | any datagram on the reactor's own path: it says whether the piece is in range, refused or past the end; in range it changes record, known ids and response of its message, answers and hands over as the transition function says; refused changes nothing; no other message is touched |
| `SubReactor.SubReactor.DealWithNewConnection` | include/rpc/server/sub_reactor.cpp:263-420 | the same on the new-connection path, which answers a duplicate with 0 and never looks at the phase |
| `SubReactor.SubReactor.Data` | include/rpc/server/sub_reactor.cpp:116-157 | a data packet in range is stored, acknowledged, and the data handed over if the prefix is complete and had not been handed over |
| `SubReactor.SubReactor.StorePiece` | include/rpc/server/sub_reactor.cpp:324-368 | creates the record or adds the piece, only if it was missing, and gives the number to acknowledge on each path; a piece above the count throws before anything is changed |
| `SubReactor.SubReactor.ResponsePhase` | include/rpc/server/sub_reactor.cpp:175-231 | reset for an unknown id, heartbeat before the response is there, then stop-and-wait with a monotone acknowledgement |
| `SubReactor.SubReactor.SendResponseDataToClient` | include/rpc/server/sub_reactor.cpp:759-788 | sends the one piece behind the acknowledged prefix, if any is left |
| `SubReactor.SubReactor.Install` | include/rpc/server/sub_reactor.cpp:664-680 | the result becomes the response; it is announced only if it replaces none |
| `SubReactor.SubReactor.JudgeDelete` | include/rpc/server/sub_reactor.cpp:742-752 | an idle record is dropped, anything else stays |
| `Invoker.Request` | include/rpc/client/invoker.cpp:62-234 | on any sequence of receptions and timeouts the two loops of the client end as the client's step function ends, by success, timeout, refusal or a piece past the end, and send exactly what it sends |
| `Invoker.Round` | include/rpc/client/invoker.cpp:100-159 | one pass of the inner loop with the count of tries behind it is that many steps of the client |
| `Invoker.SendWindow` | include/rpc/client/invoker.cpp:85-99 | sends the pieces of the window, cut at the piece count, in order |
| `Invoker.AwaitResponse` | include/rpc/client/invoker.cpp:170-234 | the phase-two loop ends and sends as the client's step function, whatever pieces arrive |
| `Invoker.TakePiece` | include/rpc/client/invoker.cpp:189-201 | sizes the buffer once; a piece in range is copied only if it is missing, its bit set and the prefix given to acknowledge; any other piece is told apart as refused or past the end |
| `Sr2pTheorems.Delivery` | include/rpc/server/sub_reactor.cpp:112-157 | in every run over a lossy, repeating, reordering network every set bit's region of the server's buffer is the sender's piece, and whatever a handler works on is the whole message |
| `Sr2pHandOver.HandOver` | include/rpc/server/sub_reactor.cpp:324-368 | in every run and on either path, a datagram hands something over if and only if it carries a piece, every piece is there with it, the record had not been handed over, and the piece was missing or came by the loop's path; and what is handed over is the message |
| `Sr2pHandOver.HandsOverExactly` | include/rpc/server/sub_reactor.cpp:149-156 | the same for any sound record, and the packet adds its own piece and no other |
| `Sr2pHandOver.CompleteIsHandedOver` | include/rpc/server/sub_reactor.cpp:360-366 | in every run, once a record has had every piece of a message that is not empty, the handler was given the message in an earlier step |
| `Sr2pHandOver.PhaseTwoMeansHandedOver` | include/rpc/client/invoker.cpp:115-175 | a client that waits for the response to a message that is not empty, or has it, does so after the handler was given the message |
| `CallOutcomes.PhaseTwoEnds` | include/rpc/client/invoker.cpp:174-234 | a receive in phase two ends the call with success if and only if it brings a piece in range and every other piece is there, and with a time-out if and only if it is silent and the last try; likewise for the other outcomes |
| `CallOutcomes.PhaseTwoTries` | include/rpc/client/invoker.cpp:174-234 | silence costs one try, a packet of the call restores all three, anything else costs nothing |
| `CallOutcomes.PhaseOneEnds` | include/rpc/client/invoker.cpp:100-159 | when a receive in phase one ends the call, and with what |
| `CallOutcomes.LastPieceSucceeds` | include/rpc/client/invoker.cpp:186-202 | in every run in which the installed responses carry the same bytes, a piece that arrives in phase two ends the call if and only if every other piece is there, and then the call returns those bytes; otherwise exactly that piece is added |
| `CallSuccess.SuccessIsPossible` | include/rpc/client/invoker.cpp:50-242 | for every message that is not empty and every result the handler may compute for it, of 1 to 65535 pieces, some run ends with the call returning that result |
| `CallSuccess.SuccessIffNotEmpty` | include/rpc/server/sub_reactor.cpp:759-769 | if the handler computes r and nothing else, some run succeeds if and only if neither the message nor r is empty |
| `CallSuccess.NoPieceNoSuccess` | include/rpc/server/sub_reactor.cpp:759-769 | in every run, as long as no installed response has a piece to send, the call has not succeeded |
| `CallSuccess.LossFreePhaseTwo` | include/rpc/client/invoker.cpp:174-202 | without loss, phase two of a response of n pieces takes exactly n exchanges: the call returns the response with the last piece and not before |
| `CallSuccess.AckBringsNext` | include/rpc/server/sub_reactor.cpp:199-226 | in every run an acknowledgement or a heartbeat in phase two is answered with the piece behind the acknowledged prefix, if there is one, and with nothing else |
| `CallSuccess.SilenceRecovers` | include/rpc/client/invoker.cpp:140-149 | if all acknowledgements of a round are lost, the client asks, sends nothing else, and the answer brings it to the record's prefix with all its tries, on either path |
| `CallSuccess.ResponseEndsPhaseOne` | include/rpc/client/invoker.cpp:131-137 | a packet of the response phase ends phase one: after at most one silence the client is in phase two and has sent no more data |
| `CallSuccess.OutlastsSilence` | include/rpc/client/invoker.cpp:218-233 | while the handler is at work a call outlasts any number of silences: each is answered, on either path, and restores all tries |
| `Sr2pTheorems.AckSoundness` | include/rpc/client/invoker.cpp:83-160 | every acknowledgement ever sent by either side, and both stored ones, is at most a prefix the receiver has really had |
| `Sr2pTheorems.PhaseTwoMeansComplete` | include/rpc/client/invoker.cpp:115-137 | a client in phase two, or done with success, implies that the longest prefix reached is the whole message |
| `Sr2pTheorems.ReachedByRecord` | include/rpc/server/request.cpp:72-91 | the longest prefix reached, if positive, was the prefix of a record that stood in some earlier state |
| `Sr2pTheorems.ClientReachedByState` | include/rpc/client/invoker.cpp:189-197 | the prefix that bounds the client's acknowledgements, if positive, was the prefix of the client's own bitmap in some step of the run, in which it was acknowledged |
| `Sr2pTheorems.PhaseTwoWithoutRecord` | include/rpc/client/invoker.cpp:82-84 | phase two can be reached with no record ever created if and only if the message is empty |
| `Sr2pTheorems.EmptyCallSkipsPhaseOne` | include/rpc/client/invoker.cpp:82-84 | the run that shows it: an empty message goes straight to phase two |
| `Sr2pTheorems.ExecutionCount` | include/rpc/server/sub_reactor.cpp:742-752 | the message is handed over at most once for each record created, expiry included, and there are never more jobs, results and responses than hand-overs |
| `Sr2pTheorems.ServerWithinBounds` | include/rpc/server/sub_reactor.cpp:112-157 | no packet this client sends takes either server path outside its bitmap and buffers |
| `Sr2pTheorems.ClientWithinBounds` | include/rpc/client/invoker.cpp:186-202 | no packet the server sends is refused by the client or takes it past its bitmap or buffer, if all installed responses carry the same bytes |
| `Sr2pTheorems.SuccessReturnsInstalled` | include/rpc/client/invoker.cpp:170-241 | a call that succeeds returns the bytes of the response, if all installed responses carry the same bytes |
| `Sr2pTheorems.SuccessIsHandlersResult` | include/rpc/client/invoker.cpp:170-241 | if the record was not created twice, a call that succeeds returns a result the handler may compute from the message sent, for any non-deterministic handler |
| `Sr2pTheorems.WholeCall` | include/rpc/client/invoker.cpp:50-242 | through middleware, pieces, handler and back: a request that succeeds returns the handler's result on the bytes passed in, even across expiry and re-execution when the handler is a function |
| `Sr2pProof.RunInv` | include/rpc/client/invoker.cpp:82-234 | the invariant over client, server slot, both packet sets and the work in progress holds in every state of every run |
| `Sr2pProof.HandedIsMessage` | include/rpc/server/sub_reactor.cpp:149-156 | for a record that agrees with the message, a data packet that completes the prefix hands over exactly the message |
| `Middleware.ChainUndoes` | include/rpc/server/middleware_channel.cpp:25-44 | services taken in order one way and in reverse order the other way undo each other |
| `Middleware.ClientUndoesServer` | include/rpc/server/middleware_channel.cpp:34-56 | what the client takes in, without the last service, is what went out of the server through all of them |
| `Middleware.ServerUndoesClient` | include/rpc/server/middleware_channel.cpp:46-68 | the server's first stage undoes the client's last |
| `Middleware.MiddlewareChannel.In` | include/rpc/server/middleware_channel.cpp:25-32 | the loop passes the data through the services in order |
| `Middleware.MiddlewareChannel.Out` | include/rpc/server/middleware_channel.cpp:34-44 | the loop passes the data through the services in reverse order |
| `Middleware.MiddlewareChannel.ClientIn` | include/rpc/server/middleware_channel.cpp:46-56 | in order without the last service, and unchanged if there is at most one |
| `Middleware.MiddlewareChannel.ClientOut` | include/rpc/server/middleware_channel.cpp:58-68 | in reverse order without the last service, and unchanged if there is at most one |
| `WindowProgress.CleanRoundProgress` | include/rpc/client/invoker.cpp:83-160 | a round whose packets and acknowledgements all arrive, in any order and with nothing else, either raises the acknowledgement to the end of its window or leaves it as it is; it leaves it if and only if the record's prefix ends before the window, or the whole window was there and every packet took the new-connection path |
| `WindowProgress.BehindForGood` | include/rpc/client/invoker.cpp:83-160 | a client ahead of the record stays where it is through any number of clean rounds on any paths, and its tries never run out |
| `WindowProgress.DuplicatesForGood` | include/rpc/server/sub_reactor.cpp:324-360 | so does a client whose window is all there, as long as its packets take the new-connection path |
| `WindowStalls.CleanRoundIsRun` | include/rpc/client/invoker.cpp:83-160 | every clean round is a stretch of an SR2P run: from the state it starts in, steps of the client, the server and the network lead to the state it ends in, and the handler still has what it was given |
| `WindowStalls.ClientGetsAhead` | include/rpc/server/sub_reactor.cpp:742-752 | some run leads to a client that is ahead of the record, through its expiry, if and only if the message has at least two pieces |
| `WindowStalls.ClientMeetsDuplicates` | include/rpc/server/sub_reactor.cpp:327-337 | some run leads to a client whose whole window is there if and only if the message is not empty |
| `WindowStalls.StalledRounds` | include/rpc/client/invoker.cpp:83-160 | from any such state the run goes on with any number of clean rounds and the acknowledgement stays |
| `WindowStalls.StalledRun` | include/rpc/client/invoker.cpp:83-160 | for every message of at least two pieces, either path and every n, a run with n clean rounds in a row that gain nothing |
| `WindowProgress.LossFreePhaseOne` | include/rpc/client/invoker.cpp:83-160 | without loss the client enters phase two at exactly ceil(pieces / window) rounds, no earlier and no later |
| `WindowProgress.RoundsDone` | include/rpc/protocol/protocol.cpp:353-363 | after k such rounds the client's acknowledgement and the server's prefix are min(k times the window, pieces) |
| `WindowProgress.ServeReaches` | include/rpc/server/sub_reactor.cpp:324-368 | which arrivals of a round produce an acknowledgement of its end, counting the zeros for duplicates |
| `WindowProgress.ServeBits` | include/rpc/server/request.cpp:82-91 | after any arrivals exactly their pieces have been added to the record |
| `WindowProgress.FeedMax` | include/rpc/client/invoker.cpp:102-149 | in whatever order they come, the client's round ends at the greatest acknowledgement |

## Left out

- Weak memory orders, and wrap-around of the queue's 64-bit indices: the step machines are sequentially consistent and count with naturals.
- `enqueue_bulk` of an explicit producer, several producers at once and the choice among them, queue construction, moves, element exceptions, thread-exit hooks and the hash of implicit producers. The ring has one producer and any number of consumers.
- The free list, the ring, the semaphore and the blocking queue are step machines on values and not classes: a method contract cannot speak of the accesses of other threads between its own.
- Readers of the implicit index that still hold an older header while it grows: the index is a sequential object. A tail slot that is out of date is covered, by `ImplicitIndex.Index.LookupFrom`.
- Kernel semaphore errors and the length of spinning, beyond the fact that a spin may end or fail at any point.
- Sockets, epoll, clocks, sleeping, logging and memory pools: they are packet steps, chosen times and arbitrary memory contents.
- zlib and the registry: the chain assumes that each service's In undoes its Out and that the last service's Out is the identity.
- Messages of more than 65529 pieces (about 34 MB), where the 16-bit piece count or window end wraps, the 100 MB test that admits them, and responses of 65536 pieces or more.
- 2^31 - 1 threads or more in the free list, for which the 31-bit reference count has no room.
- A limit on the size of a sub-queue: it is unlimited by default, and modelled so.
- What happens after an access past the end of a bitmap, a buffer or a datagram: the methods say that it happens (`Beyond`) and promise nothing about that message. In `Sr2p` the server does not receive such packets, which no packet of this client is, by `Sr2pTheorems.ServerWithinBounds`.
- Progress under arbitrary loss and when the pool is full: success is shown in runs without loss, and recovery from lost acknowledgements; the exhausted packet carries id 0 and the client ignores it.
- Heartbeats and resets leave with phase Request whatever phase was asked for, and are modelled so.
- Reuse of a connection's slot by another client, the order in which connections are served, and the paths of `dealWithNewConnection` that skip the pop of a refused connection: connections are accepted.
- Packets in `Sr2p` are headers with bodies and not bytes; `Protocol.ParseEncoded` and `Protocol.EncodeParsed` are the link.
- The server stores values in its maps where the source stores objects of the classes in `Pieces`, as `std::map` does; the classes are proved separately.
- Big-endian hosts, strings of 4 GiB or more, an array read into fewer elements than were written, floating-point keys that are not equal to themselves, and what a read beyond the payload returns.
- The partial bytes a failed nested write leaves behind: stated only as "the old stream is a prefix".
- The upper limit on the delay in `setTimeout`, interval timers, and callbacks that add or cancel timers while they run; insertion is atomic between ticks.
- The exact firing tick of a timer inserted on levels three to five: the window of one unit in which it runs is stated, and where handing down leads.
- The thread pool, the acceptor and transmitter, the timer tree and the registry templates: the handler runs later and expiry may happen at any time.
