# Verified models of the phone's audio plumbing

This project models, in Dafny 4.11, the buffers between the microphone, the network and the loudspeaker
of the VoIP phone, and proves what they promise. `dafny verify dfyconfig.toml` checks all of it.

| module | what it models |
|---|---|
| `LfRingMachine` | the lock-free ring of `src/lfringbuffer.c` as a step machine: any number of threads, every load, compare-and-swap and store one step |
| `LfRing` | calls of the same ring that nothing interrupts, by one thread of any machine or on the ring as an object: what they do, and when they never end; each call also returns the machine run it is |
| `Calls` | whole calls in the runs of these machines: when a thread is inside one, and what its own steps add to a history |
| `LfRingCalls` | what whole calls of the ring do and answer, with any number of threads in between |
| `LfQueueMachine` | the linked queue of `src/lfqueue.c`, any number of threads, every node allocated afresh |
| `LfQueueReuse` | linked queues with one producer and one consumer each, drawing on one node pool with immediate reuse |
| `LfQueueCalls`, `LfQueueReuseCalls` | what whole calls of these queues do and answer, and calls that nothing interrupts |
| `LfQueue` | the linked queue as an object of linked nodes, with the chain of retired nodes and `lfqueue_destroy` |
| `AudioMachine` | the callback and the two threads of `src/audio.c`, sharing buffers, nodes and two queues, copying one sample at a time; a call of a pool loads a pointer in one step and tests it in another |
| `AudioSound`, `AudioPromises` | the invariant of its runs, with the contents of the streams, and the theorems about them |
| `AudioObserved` | the same runs seen from outside: which frames of the producer and the device are played and consumed, and when the threads and the program end |
| `AudioPools` | the order in which buffers and nodes pass the pools and the lists, and the pointers that every answer goes by |
| `AudioRuns` | runs of that machine that end in the states the code does not expect; interleaving alone brings them about |
| `Audio` | `Audio_init`, the clearing at the end of `Audio_stop`, and `Audio_teardown` |
| `RandomGenerator`, `Pink`, `PinkSchedule` | the generator and the pink noise of `src/pink.c` |
| `ByteRing` | the sequential ring of `src/ringbuffer.c` over one flat byte array |
| `PaRecorder`, `Latency` | the callbacks of `src/main_pa.c` and the copy loop of `src/main_latency.c` |
| `Arithmetic`, `Counting`, `Samples`, `Memory` | remainders and powers of two, how often a number occurs in a list, silence, pointers and words |

A step machine has a state, a predicate `Step` or `Moves` for one step of one thread whose cases name the
source lines they execute, and a type `Run` of finite sequences of states that begin initially and advance
step by step. `RunInv` shows that every state of every run satisfies the machine's invariant, and the
theorems about runs follow from it. Histories (`enq`, `deq`, `produced`, `queued`, `outputs`, `heard`,
`captured`, `consumed`) are part of the state only to state the theorems; no step reads them. They are tied to
what happens outside the machine: `LfRingCalls`, `LfQueueCalls` and `LfQueueReuseCalls` tie them to the
arguments and answers of whole calls, and `AudioObserved` to the frames that the outside delivers. Machines
interleave steps sequentially consistently. The queue that a machine refines is `Items`: what was enqueued,
less what was dequeued.

Pointers of the ring are ints that never wrap: a step that would overflow one is undefined, and no run
takes it. Unsigned differences are reduced modulo 2^32. A `long` of `src/pink.c` has 32 bits, as on the
phone; the theorems about the generator hold for every width. Byte-wide and frame-wide copies are loops
over arrays; a frame of several channels is one element.

## What turned out false

* A NULL from the ring's dequeue does not mean that the ring was empty, and a 0 from its enqueue does not
  mean that it was full. `LfRingMachine.SpuriousEmpty` and `LfRingMachine.SpuriousFull` are runs in which
  it was not, at any moment of the call, the latter for a ring of any size from 2 on. `EmptyAnswer`,
  `SlotAnswer` and `FullAnswer` say exactly when the answers come, and `LfRing` proves them exact when
  nothing interrupts the call.
* The ring is not lock-free, as `src/lfringbuffer.c:2` calls it. An enqueue of a ring with room, running alone, ends if
  and only if no other thread holds the slot of `writePointer` (`LfRing.SoloEnqueue`, `EnqueueWaits`);
  `LfRing.BlockedEnqueuer` is a run to such a state. In the same way an enqueuer of the linked queue that has linked
  and not yet swung the tail holds up every other one, and every dequeuer once head has come to the tail
  (`LfQueueCalls.EnqueueWaits`, `DequeueWaits`, `LfQueueReuseCalls.GetWaits`).
* The pools of `src/audio.c` are such rings, and a call that gives something back can be refused by a pool
  that is never full. The answers at `src/audio.c:413` and `508` are ignored, so a frame buffer is lost
  (`AudioRuns.LostBuffer`: the flush thread loads `readPointer`, a frame is produced and played meanwhile, and
  then it tests); in `bufferFree` the answer 0 reaches the `exit` that is meant never to happen
  (`AudioRuns.SpuriousExit`: five frames are produced, played and recorded meanwhile). The exact condition is
  that the entries of the pool and the removals since the load reach its size
  (`AudioPromises.RefusedExactly`, `ExitExactly`, and for the ring itself `LfRingMachine.FullAnswer`). It never
  holds when no removal comes between the load and the test (`AudioPromises.UndisturbedKeepsAll`).
* An entry can fail to get a node; undisturbed, only when at least 296 entries of `totalSilence` wait. The fill
  thread ignores the answer (`src/audio.c:475`): it loses the buffer and its frame and goes on
  (`AudioRuns.LeakedBuffer`, a run in which the record queue holds 596 entries). The callback leaves the
  program if `errno` is not 0, and otherwise loses them too, as `src/lfqueue.c:157` returns `errno`. So each
  frame buffer is in exactly one place if and only if no call that gave it back was refused and no entry for it
  went without a node (`AudioPromises.BufferInOnePlace`), and each stream is complete if and only if none of its
  entries did (`AudioObserved.PlaysWhatIsDelivered`, `ConsumesWhatIsRecorded`). What got into a queue comes out in order
  and unmodified in any case.
* `clearAllQueues` does not test for `totalSilence` (`src/audio.c:379-381`), as the record thread does
  (`src/audio.c:502`). The pool is the complete set of 300 buffers afterwards if and only if no real
  buffer waits behind `totalSilence` in the record queue and none was lost (`Audio.ClearedComplete`).
  `AudioRuns.IncompleteClearing` is a run, in which nothing is lost, after which it is not.
* `lfqueue_destroy` hands the values that are still queued to `_free` too, and with the pool of `src/audio.c`
  they and the nodes do not fit: `Audio_teardown` leaves the program by the `exit` of `bufferFree`
  (`src/audio.c:581-583`) if and only if an entry is still queued (`Audio.AudioModule.Teardown`).
  `Audio_stop` can return without clearing the queues (`src/audio.c:328-331`), and `src/main_pretty.c:62-63`
  then tears down; `AudioRuns.TeardownOverflows` is a run that ends with one queued frame.
* `include/lfringbuffer.h:30` and `include/lfringbuffer.h:34` promise that a full ring overwrites its
  newest element and that dequeue returns a count. The code answers 0 and leaves the ring alone, and
  dequeue returns the value; the model follows the code. The promise is true of the byte ring
  (`include/ringbuffer.h:32`), where `ByteRing` proves it.

## Model

| member | source | states |
|---|---|---|
| LfRingMachine.RunInv | src/lfringbuffer.c:13-90 | every state of every run, any number of threads: read <= write <= read + size, a slot is NULL exactly when locked, each of the last `size` indices has its value in its slot or in the hand of its enqueuer, and every stale local copy is bounded by the pointers |
| LfRingMachine.FifoOrder | src/lfringbuffer.c:25-90 | the i-th successful dequeue got the value of the i-th successful enqueue, and at most `size` values are outstanding |
| LfRingMachine.MoveRefinesQueue | src/lfringbuffer.c:25-90 | each step of any thread is a step of a bounded FIFO queue: only the claim of writePointer appends, the value that its thread carries and on a queue with room; only the claim of readPointer removes, and returns the oldest; nothing else changes the queue |
| LfRingMachine.NullIffOwned | src/lfringbuffer.c:39-53 | a slot is NULL exactly while some thread holds it, and that thread is the only one |
| LfRingMachine.RestoreSucceeds | src/lfringbuffer.c:49-50 | the compare-and-swap that gives a slot back after a lost race never fails |
| LfRingMachine.StoreIsSafe | src/lfringbuffer.c:53 | the plain store fills the slot of the index it won, and the value it held before has been dequeued |
| LfRingMachine.StepsAreDefined | src/lfringbuffer.c:32-87 | slot indices stay in range and no step is undefined, up to the one step that would overflow writePointer |
| LfRingMachine.QuietSlots | src/lfringbuffer.c:25-90 | with no thread inside a call the slots from readPointer on hold exactly the queue |
| LfRingMachine.FullAnswer | src/lfringbuffer.c:33-37 | a full ring always answers 0; the answer is exact while readPointer stays as loaded, and comes exactly when the entries and the removals since the load reach the size |
| LfRingMachine.EmptyAnswer | src/lfringbuffer.c:72-76 | an empty ring always answers NULL at the pointer test, the test is exact while writePointer stays as loaded, and it comes exactly when readPointer has reached the loaded one |
| LfRingMachine.SlotAnswer | src/lfringbuffer.c:78-82 | the slot test answers NULL exactly while an enqueuer holds the slot |
| LfRingMachine.SpuriousEmpty | src/lfringbuffer.c:72-82 | a run in which a dequeue gets NULL although the queue is [7] from its first step to its last |
| LfRingMachine.SpuriousFull | src/lfringbuffer.c:33-37 | for every size from 2 on, a run in which an enqueue gets 0 from a ring that never holds more than one value during the call |
| LfRingCalls.EnqueueCall | src/lfringbuffer.c:25-56 | over whole calls in any run: enqueue(v) answers 1 exactly when its own steps appended v, once, and otherwise 0, and then they appended nothing; they remove nothing |
| LfRingCalls.DequeueCall | src/lfringbuffer.c:65-90 | over whole calls in any run: dequeue answers the one value that its own steps removed, and NULL exactly when they removed none; they append nothing |
| LfRingCalls.FreshLoads | src/lfringbuffer.c:32-73 | every pointer that a call goes by was loaded in that call, retries included |
| LfRingCalls.WhyFull | src/lfringbuffer.c:33-37 | a call that answers 0 loaded during the call a readPointer that the last writePointer is ahead of by the size |
| LfRingCalls.WhyEmpty | src/lfringbuffer.c:72-82 | a call that answers NULL loaded during the call a writePointer that readPointer had reached, or a readPointer whose slot an enqueuer held |
| LfRing.SoloEnqueue | src/lfringbuffer.c:25-56 | an uninterrupted call of enqueue by one of any number of threads, the others paused anywhere, is a run that ends with 0 and the same ring if it is full, and otherwise with 1 and the value appended if no thread holds the slot of the next index |
| LfRing.SoloDequeue | src/lfringbuffer.c:65-90 | an uninterrupted call of dequeue, likewise, ends with NULL if the ring is empty or a thread holds the slot of its oldest value, and otherwise with that value removed |
| LfRing.EnqueueWaits | src/lfringbuffer.c:32-43 | while another thread holds that slot of a ring with room, an enqueuer on its own comes round to the same state again |
| LfRing.BlockedEnqueuer | src/lfringbuffer.c:2-43 | a run that ends in such a state, with an empty ring |
| LfRing.RestingSlots | src/lfringbuffer.c:13-90 | while no thread holds a slot, no slot is NULL and the window between the pointers is the queue |
| LfRing.RingBuffer.constructor | src/lfringbuffer.c:13-23 | an empty ring, in an initial state of the machine |
| LfRing.RingBuffer.Enqueue | src/lfringbuffer.c:25-56 | appends and returns 1, or returns 0 and changes nothing, exactly when full; the call is a run of the machine |
| LfRing.RingBuffer.Dequeue | src/lfringbuffer.c:65-90 | removes and returns the oldest value, or returns NULL exactly when empty; the call is a run of the machine |
| LfRing.RingBuffer.Count | src/lfringbuffer.c:61-63 | for sequential calls the debugging count is the number of values held |
| LfQueueMachine.RunInv | src/lfqueue.c:84-171 | every state of every run: the linked nodes form one chain through head and tail, they hold the queue, private nodes have one holder, and stale pointers stay on the chain |
| LfQueueMachine.FifoOrder | src/lfqueue.c:84-171 | the i-th successful dequeue got the value of the i-th enqueue |
| LfQueueMachine.MoveRefinesQueue | src/lfqueue.c:84-171 | each step of any thread is a step of a FIFO queue: the link appends the value that its thread carries, the swing of head removes the oldest and returns it, nothing else changes the queue |
| LfQueueMachine.TailNearEnd | src/lfqueue.c:93-104 | head never passes tail, and tail is the last node or the one before; it lags exactly while an enqueuer is about to swing it |
| LfQueueMachine.SwingSucceeds | src/lfqueue.c:165-167 | the compare-and-swap of tail after a link never fails |
| LfQueueMachine.LinkIsAtTheEnd | src/lfqueue.c:163-165 | the link succeeds exactly when the loaded tail is the last node, and then it is the current tail |
| LfQueueMachine.StepsAreDefined | src/lfqueue.c:84-171 | no thread ever follows a pointer to a node that does not exist |
| LfQueueMachine.EmptyWhenRead | src/lfqueue.c:92-108 | a dequeuer that has read a NULL link read it at a moment when the queue was empty, and has done nothing else since |
| LfQueueMachine.NullMeansEmpty | src/lfqueue.c:84-119 | every NULL answer has a moment inside that very call at which the queue was empty |
| LfQueueMachine.SizeCounter | src/lfqueue.c:268-313 | modulo the word, the counter is the length less the links not yet counted plus the removals not yet counted; at rest it is the length |
| LfQueueCalls.EnqueueCall | src/lfqueue.c:151-275 | over whole calls in any run: lfqueue_enq(v) appends v, once, by its own steps and answers 0 |
| LfQueueCalls.DequeueCall | src/lfqueue.c:84-287 | over whole calls in any run: lfqueue_deq answers the one value that its own steps removed, and NULL exactly when they removed none |
| LfQueueCalls.WhyEmpty | src/lfqueue.c:84-119 | every call that answers NULL has a moment inside it at which the queue was empty |
| LfQueueCalls.SoloEnqueue | src/lfqueue.c:151-275 | an uninterrupted lfqueue_enq ends with the value in a fresh node at the end of the chain, unless an enqueuer has linked and not yet swung the tail |
| LfQueueCalls.SoloDequeue | src/lfqueue.c:84-287 | an uninterrupted lfqueue_deq ends with the oldest value removed, or with NULL for an empty queue, unless the tail lags and head has come to it |
| LfQueueCalls.EnqueueWaits | src/lfqueue.c:162-171 | while the tail lags an enqueuer on its own comes round to the same state again |
| LfQueueCalls.DequeueWaits | src/lfqueue.c:89-114 | while the tail lags at head so does a dequeuer |
| LfQueueReuse.RunInv | src/lfqueue.c:121-171 | every state of every run of any number of single-producer single-consumer queues on one pool keeps every list chained and filled, every node in its place and every size counted |
| LfQueueReuse.FifoOrder | src/lfqueue.c:121-171 | every queue is FIFO in every interleaving although nodes are reused at once, and its list holds exactly its values |
| LfQueueReuse.MoveRefinesQueues | src/lfqueue.c:121-171 | each step of a queue is a step of a FIFO queue, the link appending the value that the producer carries, and changes no other queue |
| LfQueueReuse.NodeInOnePlace | src/lfqueue.c:121-171 | each node is in exactly one of pool, one list, a base node, a producer's hand or a consumer's hand |
| LfQueueReuse.LinkSucceeds | src/lfqueue.c:164-165 | a producer only ever links to the last node of its own list, never to a node that was recycled, and the link succeeds |
| LfQueueReuse.SwingSucceeds | src/lfqueue.c:167 | the compare-and-swap of tail after a link never fails |
| LfQueueReuse.ConsumerReadsOwnNodes | src/lfqueue.c:126-139 | the nodes a consumer reads are in its own list, and the node it frees is nowhere else |
| LfQueueReuse.StepsAreDefined | src/lfqueue.c:121-171 | no step uses a node that does not exist: the consumer can always take its next step, and the producer unless it allocates from an empty pool |
| LfQueueReuse.NullMeansEmpty | src/lfqueue.c:126-144 | a consumer that has read a NULL link read it at a moment when the queue was empty, and has done nothing else since |
| LfQueueReuse.SizeCounter | src/lfqueue.c:268-313 | modulo the word, the size counter of each queue is its length less the link not yet counted plus the removal not yet counted; at rest it is the length |
| LfQueueReuseCalls.PutCall | src/lfqueue.c:151-275 | over whole calls in any run: a producer that calls lfqueue_enq(v) has put exactly v into its queue when the call is over |
| LfQueueReuseCalls.GetCall | src/lfqueue.c:121-313 | over whole calls in any run: lfqueue_single_deq answers the one value by which it shortened its queue, and NULL exactly when it took none |
| LfQueueReuseCalls.WhyEmpty | src/lfqueue.c:121-144 | every call that answers NULL has a moment inside it at which the queue was empty |
| LfQueueReuseCalls.SoloPut | src/lfqueue.c:151-275 | an uninterrupted lfqueue_enq ends with the value at the end of the list, in a node of the pool |
| LfQueueReuseCalls.SoloGet | src/lfqueue.c:121-313 | an uninterrupted lfqueue_single_deq ends with the oldest value removed and its node in the pool, or with NULL for an empty queue, unless the tail lags at head |
| LfQueueReuseCalls.GetWaits | src/lfqueue.c:126-144 | while the tail lags at head a consumer on its own comes round to the same state again |
| LfQueueReuse.Phone | src/audio.c:548-571 | the phone's 600 nodes and two queues are an initial state |
| LfQueue.ExpiredExactly | src/lfqueue.c:195-204 | for times that never decrease, the entries the walk passes are exactly those over two seconds old, other than the newest |
| LfQueue.ExpiredNodes | src/lfqueue.c:190-209 | the retired chain is in order of retirement, so the expired nodes are a front part of it |
| LfQueue.Queue.constructor | src/lfqueue.c:217-244 | an empty queue with its two nodes |
| LfQueue.Queue.Walk | src/lfqueue.c:193-204 | the loop hands back exactly the expired front of the chain and stops at the node behind it |
| LfQueue.Queue.CheckFree | src/lfqueue.c:190-209 | hands back exactly the nodes over two seconds old, other than the newest retired one, in order |
| LfQueue.Queue.Link | src/lfqueue.c:152-171 | a new node holding the value becomes the end of the list |
| LfQueue.Queue.Recycle | src/lfqueue.c:178-187 | the node becomes the end of the retired chain, with the time of its retirement |
| LfQueue.RetireOneMore | src/lfqueue.c:178-187 | a chain in order of retirement that grows at its end stays in order |
| LfQueue.LinkOneMore | src/lfqueue.c:159-167 | a list that grows at its end stays chained |
| LfQueue.Queue.Take | src/lfqueue.c:85-113 | NULL exactly for an empty queue; otherwise the oldest value, and the old head is retired |
| LfQueue.Queue.Enqueue | src/lfqueue.c:152-209 | appends the value and hands back exactly the expired nodes |
| LfQueue.Queue.Dequeue | src/lfqueue.c:84-119 | removes and returns the oldest value, or NULL exactly when empty, and hands back exactly the expired nodes |
| LfQueue.Queue.SingleDequeue | src/lfqueue.c:121-313 | removes and returns the oldest value, or NULL exactly when empty, and hands its predecessor back at once without touching the free chain |
| LfQueue.FreeHead | src/lfqueue.c:138-140 | handing the head back at once, past the retired nodes, loses no node and doubles none |
| LfQueue.Queue.Destroy | src/lfqueue.c:247-266 | after any mix of enqueues, dequeues and single dequeues, every node ever allocated has been handed back exactly once, and every value still queued has been handed to the free function |
| LfQueue.Queue.DestroyChain | src/lfqueue.c:252-265 | the retired chain and the last node are handed back, each once |
| AudioMachine.FreshInit | src/audio.c:156-171 | the state that Audio_init leaves is the proper start of a session |
| AudioSound.StepInv | src/audio.c:387-519 | every step of the callback and of the two threads, pool calls included, keeps the ownership of buffers and nodes, the pointers of the pools and the contents of both streams |
| AudioSound.RunInv | src/audio.c:387-519 | every state of every run satisfies that invariant |
| AudioMachine.Room | src/audio.c:413-508 | while a thread holds a buffer the pool has room for it |
| AudioMachine.GiveBack | src/audio.c:413-508 | a call that gives a buffer back never meets a full pool, and keeps every buffer in one place or recorded as lost |
| AudioMachine.NodeGiven | src/audio.c:578-585 | a call that gives a node back never meets a full pool, and keeps every node in one place or recorded as lost |
| AudioMachine.NodeBudget | src/audio.c:548-585 | free nodes, entries of both queues, four kept nodes, nodes being given back and lost nodes make 600 |
| AudioMachine.BufferBudget | src/audio.c:537-546 | entries beyond the 300 buffers are totalSilence in the record queue or just out of it |
| AudioSound.WriteSound | src/audio.c:425-427 | copying into the buffer in a thread's hand changes neither stream, nor any other thread's copy |
| AudioPromises.BufferInOnePlace | src/audio.c:387-519 | in every run each of the 300 buffers is in at most one of pool, playback queue, record queue or a thread's hand, and in exactly one if and only if in no step so far a call giving it back found the pool full by what it had loaded, or an entry for it got no node; totalSilence is never in the pool or the playback queue |
| AudioPromises.PlaysInOrder | src/audio.c:396-475 | apart from inserted silence, the device plays the first of the frames that got into the playback queue, unchanged and in order |
| AudioPromises.ConsumesInOrder | src/audio.c:416-509 | the i-th frame handed to the consumer is the i-th captured frame that the record queue was given an entry for, or all zeros |
| AudioPromises.NoFrameLost | src/audio.c:396-509 | between frames, the frames that got into the playback queue are exactly those played followed by its contents, and what the record queue was given is exactly what was consumed followed by its contents |
| AudioPromises.NodesBalance | src/audio.c:573-585 | the node budget holds in every run, and a node is lost exactly in the step in which bufferFree finds the pool full by what it had loaded |
| AudioPromises.LostExactly | src/audio.c:413-508 | a buffer is lost if and only if some step so far refused it or found no node for its entry |
| AudioPromises.RefusedExactly | src/lfringbuffer.c:33-45 | a call that gives a buffer back is refused exactly when the entries and the removals since its load reach 300, so only after a removal by another thread; the pool is never full then |
| AudioPromises.UnservedExactly | src/lfringbuffer.c:72-82 | an entry gets no node exactly when all nodes of the pool were added since the load, or its slot is locked by an enqueuer |
| AudioPromises.ExitExactly | src/audio.c:436-585 | the program leaves by bufferFree exactly after the step in which the nodes of the pool and the removals since the load reach 600, and by the callback exactly after its entry got no node |
| AudioPromises.NodeRoom | src/audio.c:578-585 | the pool is never full when a call that gives a node back makes its test |
| AudioPromises.UndisturbedKeepsAll | src/audio.c:387-585 | in every run in which no removal comes between the load and the test of such a call, the exit of bufferFree is not reached and a buffer is in exactly one place unless an entry for it got no node |
| AudioPromises.StarvationNeedsSilence | src/audio.c:429-475 | an allocation that is not disturbed fails only when at least 296 entries of totalSilence wait in the record queue or have just been taken out of it |
| AudioObserved.EveryRunFollows | src/audio.c:387-519 | every run has actions of the outside that it follows, so that the theorems about actions hold of all runs |
| AudioObserved.RunAgrees | src/audio.c:387-519 | whatever producer, device and consumer decide, every run agrees with an observer who sees only that and where the threads are: in its histories, in the silence inserted and recorded, in the ends of the threads and in the exit |
| AudioObserved.PlaysWhatIsDelivered | src/audio.c:396-475 | apart from inserted silence the device plays, in order and unchanged, the first of the frames that the producer delivered in rounds that got a buffer and a node; these are all frames of rounds that got a buffer, but for the one on its way, if and only if no entry went without a node |
| AudioObserved.InsertsSilence | src/audio.c:396-410 | silence is inserted exactly by the callbacks that begin with an empty playback queue, and it is 512 zeros |
| AudioObserved.ConsumesWhatIsRecorded | src/audio.c:416-509 | the consumer gets, in order, the frames that the device delivered to the callbacks that made an entry, with silence exactly for those that got no buffer; these are all callbacks if and only if no entry went without a node |
| AudioObserved.ThreadsEnd | src/audio.c:450-518 | the fill thread ends exactly when it finds stopPlayback set or the producer asks to stop; the flush thread exactly when it finds stopRecording set or has returned the buffer after the consumer asked to stop |
| AudioObserved.LeavesExactly | src/audio.c:436-585 | the program leaves in a step exactly if a node goes back to a pool full by what was loaded, or the entry of the callback gets no node and errno is not 0 |
| AudioPools.PoolsInOrder | src/audio.c:396-585 | in every run buffers leave the pool in the order in which they came to it, and so do the nodes of the node pool and of the lists of both queues |
| AudioPools.FillWaits | src/lfringbuffer.c:72-82 | every answer of a pool to the fill thread goes by the writePointer of a moment in the same call |
| AudioPools.CallbackWaits | src/lfringbuffer.c:33-82 | the same for the callback, with readPointer for what it gives back |
| AudioPools.FlushWaits | src/lfringbuffer.c:33-45 | the same for what the flush thread gives back |
| AudioSound.StepsAreDefined | src/audio.c:387-519 | no step uses a buffer or a list entry that does not exist |
| Audio.OfferReal | src/audio.c:375-377 | distinct real buffers all find room in the pool |
| Audio.RecordIntoPool | src/audio.c:379-381 | emptying the record queue into the pool completes the pool if and only if no real buffer is behind totalSilence |
| Audio.ClearedComplete | src/audio.c:372-382 | after clearing both queues the pool holds each of the 300 buffers once and nothing else if and only if no real buffer was behind totalSilence in the record queue and none was lost |
| Audio.ClearedNodesOwned | src/audio.c:372-382 | clearing gives back the node of every entry and leaves one node in each queue |
| Audio.SessionEnds | src/audio.c:308-352 | the same for the end of every run |
| Audio.RestartIsInit | src/audio.c:308-352 | the state that clearing leaves is a proper start of the next session, so that all the theorems about runs hold again, if and only if no real buffer was behind totalSilence and none was lost |
| Audio.AudioModule.constructor | src/audio.c:156-171 | 300 buffers and 600 nodes, of which each queue takes two |
| Audio.AudioModule.ClearAllQueues | src/audio.c:372-382 | both queues end empty, both pools are what offering the entries and their nodes in order makes of them, and every node finds room |
| Audio.AudioModule.Teardown | src/audio.c:193-234 | leaves the program if and only if an entry is still queued, whatever the clock does; otherwise each of the 600 nodes is freed exactly once, and each of the 300 buffers if the pool is complete |
| Audio.Destroy | src/lfqueue.c:247-266 | hands to bufferFree the frame buffer of every entry and all nodes of the queue, each once, whatever the clock does |
| Audio.AudioModule.BufferFreeAll | src/audio.c:578-585 | the exit is reached exactly when the blocks do not fit; otherwise the pool has them all |
| Audio.NodesOffered | src/audio.c:200-201 | what both queues hand to bufferFree fits the pool if and only if both are drained |
| Audio.NodesBack | src/audio.c:200-215 | with drained queues it completes the pool to all 600 nodes, each once |
| AudioRuns.RecordMany | src/audio.c:396-434 | for every n up to 300, a run after which n recorded frames wait in order |
| AudioRuns.IncompleteClearing | src/audio.c:372-382 | a run in which nothing is lost, after which clearing leaves an incomplete pool and the next session has no proper start |
| AudioRuns.TeardownOverflows | src/audio.c:193-201 | a run after which one queued frame makes the blocks offered at teardown one too many |
| AudioRuns.LostBuffer | src/audio.c:508 | a run in which the flush thread is disturbed between load and test, and a buffer is lost although the pool holds 299 of 300 |
| AudioRuns.SpuriousExit | src/audio.c:578-584 | a run in which the flush thread is disturbed between load and test, and the exit of bufferFree is reached although the pool holds 590 of 600 |
| AudioRuns.LeakedBuffer | src/audio.c:475 | a run in which the node pool is empty and the fill thread loses a buffer and its frame, though the pool of buffers never refused it |
| RandomGenerator.SameWord | src/pink.c:44-49 | for every width k, two numbers of steps lead to the same word exactly when they are equal modulo 2^k |
| RandomGenerator.Reaches | src/pink.c:44-49 | every word of k bits is reached from every seed in fewer than 2^k steps |
| RandomGenerator.Truncates | src/pink.c:47 | truncating to the word in every step equals truncating once at the end |
| RandomGenerator.FullPeriod | src/pink.c:44-49 | the orbit of every seed visits all 2^w words before it repeats, and then repeats with period exactly 2^w |
| RandomGenerator.StepIsBijection | src/pink.c:44-49 | the step is a bijection on words: 2^w - 1 further steps undo it from either side |
| RandomGenerator.Generator.GenerateRandomNumber | src/pink.c:44-49 | the static seed advances by one step on 32-bit words and is returned |
| Pink.SumUpdate | src/pink.c:93-96 | taking the replaced row off the running sum and adding the new one gives the sum of all rows |
| Pink.SumBounds | src/pink.c:93-95 | rows within 24 bits bound their sum |
| Pink.SumWithin | src/pink.c:99-101 | no sum of at most 30 rows and one more number overflows a 32-bit long |
| Pink.MaskIsRemainder | src/pink.c:57-76 | masking with the index mask of n rows is the remainder modulo 2^n |
| Pink.ZerosBelow | src/pink.c:78-87 | the trailing zeros of a masked index select one of the rows |
| Pink.Draw | src/pink.c:94 | the random word read as signed and shifted right by 8: in [-2^23, 2^23 - 1], and together with the low 8 bits it is the word again |
| Pink.FirstDraw | src/pink.c:46-94 | from the seed 22222 the first random number is 4009202705, which is drawn as -1116268 |
| Pink.Scaled | src/pink.c:59-103 | scaling by the largest magnitude gives a value in [-1, 1) |
| Pink.PinkNoise.constructor | src/pink.c:53-68 | all rows and the running sum are zero, and no shift or product overflows |
| Pink.PinkNoise.ReplaceRow | src/pink.c:76-97 | the index advances modulo 2^n, exactly the row of its trailing zeros is replaced, and the running sum stays the sum of the rows |
| Pink.PinkNoise.GeneratePinkNoise | src/pink.c:71-106 | rows, index and seed advance as `Pink.Called` says, the running sum stays the sum of the rows, and the output is that sum and one fresh number over the largest magnitude, in [-1, 1) |
| PinkSchedule.IndexAdvances | src/pink.c:76 | the index after t calls, one call at a time |
| PinkSchedule.ZerosResidue | src/pink.c:84-87 | a number has k trailing zeros exactly when it leaves 2^k modulo 2^(k+1) |
| PinkSchedule.IndexResidue | src/pink.c:76 | the wrap of the index does not change what it leaves modulo a smaller power of two |
| PinkSchedule.RowSchedule | src/pink.c:76-97 | row k is replaced exactly by the calls whose count is 2^k modulo 2^(k+1), also across the wrap of the index |
| PinkSchedule.RowPeriod | src/pink.c:76-97 | after a replacement of row k the next one comes exactly 2^(k+1) calls later |
| PinkSchedule.FullCycle | src/pink.c:71-106 | of any 2^n consecutive calls, from any rows, index and seed, exactly 2^(n-1-k) replace row k and exactly one replaces no row, and the index is back where it was |
| PinkSchedule.SeedAfterCalls | src/pink.c:71-106 | t calls draw two random numbers each, less one for every call that replaces no row |
| PinkSchedule.DrawsPerCycle | src/pink.c:71-106 | any 2^n consecutive calls draw exactly 2^(n+1) - 1 random numbers |
| PinkSchedule.RowAfterCall | src/pink.c:76-97 | a call changes row k exactly to the next random number if it replaces it, and otherwise not at all |
| PinkSchedule.CallPeriod | src/pink.c:71-106 | after a call that replaces row k the next that does comes exactly 2^(k+1) calls later |
| PinkSchedule.CallsIndex | src/pink.c:76 | the index after t calls is the first one plus t modulo 2^n |
| ByteRing.OverflowKeepsOldest | src/ringbuffer.c:34-53 | however many elements arrive, the oldest capacity - 1 stay, followed by the last to arrive |
| ByteRing.SlotBounds | src/ringbuffer.c:29-32 | the byte ranges of slots lie in the buffer and do not overlap |
| ByteRing.NextTail | src/ringbuffer.c:46-49 | tail is head + count modulo the capacity, and meets head exactly when the ring becomes full |
| ByteRing.BeforeTail | src/ringbuffer.c:36-39 | the slot before tail, with the wrap of the code, is the slot of the newest element |
| ByteRing.WriteLast | src/ringbuffer.c:34-53 | writing the slot of the k-th element puts it behind the k before it and changes none of them |
| ByteRing.DropFirst | src/ringbuffer.c:102-104 | advancing head removes exactly the oldest element |
| ByteRing.RingBuffer.constructor | src/ringbuffer.c:11-19 | an empty ring for any capacity of at least one and any element size |
| ByteRing.RingBuffer.IsEmpty | src/ringbuffer.c:25-27 | true exactly when no element is held |
| ByteRing.RingBuffer.Store | src/ringbuffer.c:29-45 | the memcpy into a slot changes that element and no other |
| ByteRing.RingBuffer.Load | src/ringbuffer.c:29-99 | the memcpy out of a slot gives that element |
| ByteRing.RingBuffer.Enqueue | src/ringbuffer.c:34-53 | appends the element, or puts it in the place of the newest when full |
| ByteRing.RingBuffer.Dequeue | src/ringbuffer.c:93-107 | removes the oldest element and copies it out unless NULL was passed; 0 and no change exactly when empty |
| PaRecorder.TestData.RecordCallback | src/main_pa.c:71-117 | stores as much of the input, or of silence, as there is room for, and answers complete exactly when not all fits |
| PaRecorder.TestData.PlayCallback | src/main_pa.c:123-166 | plays the next samples, then zeros, and answers complete exactly when samples run short |
| PaRecorder.RecordsPrefix | src/main_pa.c:83-116 | however the input is cut into callbacks, the samples held are its first part, never more than the maximum |
| PaRecorder.PlaysThenZeros | src/main_pa.c:134-165 | however the output is cut into callbacks, it is the samples in order, then only zeros |
| PaRecorder.PlayingEnds | src/main_pa.c:134-166 | however the output is cut into callbacks, the last one answers complete exactly when it asked for samples and they ran short |
| PaRecorder.RecordThenPlay | src/main_pa.c:71-166 | recording until complete and playing with other sizes gives exactly the recorded samples in order, then only zeros |
| Latency.Readbuf | src/main_latency.c:356-385 | repeats on -EAGAIN, returns an error exactly when the device failed, and what it returns and counts is what the device captured |
| Latency.Writebuf | src/main_latency.c:386-403 | for every pattern of short writes the device gets a front part of the buffer, in order and counted; it gets all of it and 0 is returned unless the device failed |
| Latency.Prefill | src/main_latency.c:633-646 | two buffers of silence are written, or a front part of them exactly when the device failed |
| Latency.Transfer | src/main_latency.c:633-678 | ok exactly when no device failed; then playback is 2 * latency frames of silence followed by the captured frames in order, frames_out = frames_in + 2 * latency and the limit is reached; after a failure playback is a front part of that; the captured frames are the front of what came in, and no read begins once the limit is reached |

## Left out

- Retired nodes of `src/lfqueue.c` reused while other threads still hold pointers to them: their safety rests on wall-clock time. `LfQueueMachine` allocates every node afresh, and `LfQueue` has one thread.
- Several producers on a queue whose consumer uses `_single_dequeue`: a stale tail can point to a reused node.
- The return of `errno` when an allocation fails (`src/lfqueue.c:155-158`): `AudioMachine` follows both its values; `LfQueueReuse` waits for a node. If `errno` is 0 the code also counts the entry that is missing, and that counter is not part of `AudioMachine`.
- LfRingMachine.FifoOrder: runs in which writePointer passes the largest int are not covered, because the increment is undefined there; NULL is not enqueued, as in the phone.
- LfRing.RingBuffer.Count: the count under concurrent calls is not modelled, as the code declares it for debugging only.
- LfQueueMachine.NullMeansEmpty: the free chain is not part of this machine; the stores to a node before it is linked are one step, as no other thread can see them.
- LfQueue.Queue.Destroy: what `_free` does with a node or a value is the caller's; the order and the multiplicity of its calls are stated.
- AudioPromises.UnservedExactly: which slots are locked is not modelled, so a removal may answer NULL whenever another thread is inside an enqueue on the same pool; an addition takes effect at its test, and may start again at any time. The queues are single steps apart from their calls of the node pool. The pointers of the pools do not overflow.
- AudioPromises.PlaysInOrder: the loops of the threads are steps of a state machine rather than methods, because the three interleave; the busy wait of `bufferPlaybackQueue` only delays the start.
- Audio.AudioModule.Teardown: how many expired nodes each dequeue hands back is a parameter, as the clock decides it; `LfQueue` says how.
- Pink.PinkNoise.GeneratePinkNoise: the scaling is over real numbers, without the rounding of floats, and a `long` has 32 bits.
- Latency.Transfer: non-blocking mode without the effect; the devices are scripts of answers, and the setting of silence does not fail.
- PaRecorder.RecordThenPlay: one channel; frameIndex is 0 when playing starts, as `main` sets it.
- `RingBuffer_dequeueN` of `src/ringbuffer.c`, which the code declares broken, and the stub `src/sendbuffer.c`.
- Datagrams of `src/call.c`: byte counts are added to a pointer to short and signed results are compared with unsigned sizes, so a whole frame is not transferred as written.
- PortAudio, ALSA, sockets, thread creation, GPIO, I2C, LEDs, keypad, prompts and the address table: I/O or plain lookups.
- Progress of calls that others interrupt, and weak memory ordering.
