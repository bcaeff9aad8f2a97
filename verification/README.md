# Verified models of the concurrent queues, trees, parsers and hashes

This project models the parts of the repository whose correctness is hardest to
see from the code, and proves what they promise. Concurrent code is a step
machine: one atomic operation of one thread a step, any number of threads, any
interleaving, sequentially consistent. Each machine is a total function of its
state and an event; the theorems quantify over every trace. Fields marked as
history are never read by a step; they only say what has happened. Code that
changes objects or buffers in place is modelled with classes and loops, proved
against functions on values.

* `Counting`, `RingArithmetic`, `Powers`: sums over threads, positions in a ring,
  powers of two.
* `FreeList`: the reference-counted free list of the concurrent queue (`add`,
  `try_get`, `add_knowing_refcount_is_zero`), with the count and the
  should-be-on-list bit in one word, as the source keeps them.
* `DequeueCounters`: the optimistic and overcommit counters by which consumers
  share one producer.
* `BlockIndex`: the producer with its circular list of blocks and its circular
  block index (reuse, insertion, doubling), run together with the counter
  protocol and with consumers that look up, read and mark elements.
* `BlockProgress`: what the calls on that producer achieve.
* `TreeShapes`, `InsertShapes`, `EraseShapes`, `RemovalShapes`, `TreeSearch`,
  `RedBlackTree`: the red-black tree with parent pointers. Nodes live in the
  heap; a shape and a path (a zipper) describe the tree around the node a loop
  works at. Rotations, both fix-up loops, insertion, erasure and search, all
  mirror cases.
* `LockfreeQueue`, `LockfreeProgress`: the linked queue with tagged head and tail,
  and what its calls achieve.
* `TaggedFreelist`: the tagged stack of blocks behind it.
* `Semaphore`, `BlockingQueue`: the lightweight semaphore with spinning,
  timeouts, the recovery loop and bulk waits, and the blocking queue that is
  the same semaphore operations in front of a bag.
* `JsonText`, `JsonTree`, `JsonGrammar`, `JsonAccepts`, `JsonMinify`,
  `JsonComments`, `JsonCode`: the JSON library's escapes
  and UTF-8 (section 7 of RFC 8259, section 3 of RFC 3629), its parser and
  two-mode printer with precomputed buffer lengths, the grammar of RFC 8259 as
  their common reference, and minifying in place. A
  text is a string whose end stands for the terminating NUL.
* `HttpFraming`, `HttpBodies`, `HttpMessages`, `HttpOutcomes`, `HttpParser`: the HTTP parser from
  the header block to the end of the message: a byte automaton, what it makes of
  lengths and chunks (section 4.1 of RFC 7230), whole messages from their first
  header byte, and the resumable loop with its marks and jumps.
* `Murmur`: MurmurHash3 x86_32 on 32-bit words.
* `PriorityQueues`: the map-based and the array-based stable priority queue.

## Model

| member | source | states |
|---|---|---|
| FreeList.NoBlockTwice | core/threadpool/concurrentqueue/concurrentqueue.h:1438-1517 | in every interleaving the list is an acyclic chain without repetition, no block is in two callers' hands, none is both on the list and in a caller's hands |
| FreeList.PopIsSound | core/threadpool/concurrentqueue/concurrentqueue.h:1466-1482 | when the CAS of the head succeeds, the next pointer it installs is still the head's own, and the should-be-on-list bit is clear until the references are given back |
| FreeList.NoBlockLost | core/threadpool/concurrentqueue/concurrentqueue.h:1495-1517 | when no call is under way every block is on the list or in a caller's hands, also after adds that gave up because of a failed CAS |
| FreeList.GetAlone | core/threadpool/concurrentqueue/concurrentqueue.h:1454-1492 | try_get run alone while no other call is under way takes the first block of a list that is not empty and leaves the others; an empty list it leaves as it is |
| FreeList.AddAlone | core/threadpool/concurrentqueue/concurrentqueue.h:1438-1451 | add run alone puts its block first on the list |
| FreeList.NothingOnlyFromEmpty | core/threadpool/concurrentqueue/concurrentqueue.h:1459-1492 | in every interleaving the step that ends a try_get puts a block into the caller's hands, or the list was empty at a moment inside the call |
| FreeList.StepInv | core/threadpool/concurrentqueue/concurrentqueue.h:1438-1517 | every operation keeps the invariant that ties each block's word to the list, the threads that hold references and the thread that is pushing it |
| DequeueCounters.HeadWithinTail | core/threadpool/concurrentqueue/concurrentqueue.h:1940-1988 | the head never passes the tail, committed consumers included; optimistic = head + overcommit + consumers between the two additions |
| DequeueCounters.ClaimedOnce | core/threadpool/concurrentqueue/concurrentqueue.h:1977-1988 | every index below the head has one claimant; two consumers never hold the same index |
| DequeueCounters.ClaimsAreInOrder | core/threadpool/concurrentqueue/concurrentqueue.h:1988 | a claim takes the current head, which is below the tail, and advances it by one |
| DequeueCounters.QuiescentDequeue | core/threadpool/concurrentqueue/concurrentqueue.h:1940-2037 | with no dequeue in flight optimistic - overcommit = head, and a dequeue that runs alone succeeds exactly when the queue is not empty |
| DequeueCounters.DequeueAlone | core/threadpool/concurrentqueue/concurrentqueue.h:1940-2037 | from every reachable state, a dequeue that runs alone claims the head if and only if there is an element beyond those the calls left under way may still claim; otherwise it changes nothing |
| DequeueCounters.StepInv | core/threadpool/concurrentqueue/concurrentqueue.h:1940-2037 | every operation keeps the counters' invariant, with the fate of every optimistic count drawn |
| BlockIndex.LookupFindsElement | core/threadpool/concurrentqueue/concurrentqueue.h:1993-2005 | at every reachable state, looking up an index not yet consumed through the current ring gives the block and the element enqueued there |
| BlockIndex.DeliversTheQueue | core/threadpool/concurrentqueue/concurrentqueue.h:1834-2037 | every index is delivered at most once and with its own element, across reuse, insertion and doubling; what is neither delivered nor in a consumer's hands is still to be claimed |
| BlockIndex.ReturnsItsElement | core/threadpool/concurrentqueue/concurrentqueue.h:2004-2028 | a consumer about to mark its slot empty holds exactly the element enqueued at its index, and the flag it sets was clear |
| BlockIndex.StepInv | core/threadpool/concurrentqueue/concurrentqueue.h:1834-2037 | every operation of producer and consumers keeps the agreement of circle, rings, flags and lookups under way |
| BlockIndex.ReuseInv | core/threadpool/concurrentqueue/concurrentqueue.h:1842-1852 | reusing the emptied block ahead keeps it: the oldest run leaves every ring and circle it was in |
| BlockIndex.DoubledRing | core/threadpool/concurrentqueue/concurrentqueue.h:2355-2373 | the doubled ring describes the same runs of indices as the old one |
| BlockIndex.NewBlockIndex | core/threadpool/concurrentqueue/concurrentqueue.h:2341-2378 | the copying loop over the circular array fills the new array with the used slots in order, whatever the front |
| BlockIndex.LookupFinds | core/threadpool/concurrentqueue/concurrentqueue.h:1999-2002 | the slot computed from a front read earlier holds the base and block of the index's run |
| BlockIndex.FlagClear | core/threadpool/concurrentqueue/concurrentqueue.h:1576-1582 | the flag that set_empty asserts to be clear is clear |
| BlockProgress.ElementsAreArguments | core/threadpool/concurrentqueue/concurrentqueue.h:1834-1937 | in every run the elements published are the arguments of the enqueue calls, in order, less the call under way and those given up for want of a block |
| BlockProgress.DeliversArguments | core/threadpool/concurrentqueue/concurrentqueue.h:1834-2037 | what is delivered for index i is the argument of the i-th successful call |
| BlockProgress.AlwaysPublishes | core/threadpool/concurrentqueue/concurrentqueue.h:1842-1936 | a call that has its block publishes its element with the producer's next operations, whatever the consumers do |
| BlockProgress.RequisitionGoesOn | core/threadpool/concurrentqueue/concurrentqueue.h:1884-1903 | a block handed over by the pool becomes the tail block of such a call |
| BlockProgress.EnqueueBegins | core/threadpool/concurrentqueue/concurrentqueue.h:1835-1839 | a call begins with its own argument, and has its block already unless the index is a multiple of the block size |
| BlockProgress.ReusesEmptied | core/threadpool/concurrentqueue/concurrentqueue.h:1842-1882 | at a block's end the oldest block is taken again if and only if all its elements have been delivered; otherwise a new one is needed |
| BlockProgress.AlwaysDelivers | core/threadpool/concurrentqueue/concurrentqueue.h:1990-2028 | a consumer that has claimed an index delivers its element with its next operations, whatever the others do |
| TreeShapes.LeftRotation | practice/rbtree.h:153-177 | the link changes of a left rotation turn a tree in memory into the rotated tree in the same memory, root pointer and parent pointers included |
| TreeShapes.RightRotation | practice/rbtree.h:179-204 | likewise for the right rotation |
| RedBlackTree.RBTree.LeftRevolve | practice/rbtree.h:153-177 | exactly which links of which nodes change, and the new root |
| RedBlackTree.RBTree.RightRevolve | practice/rbtree.h:179-204 | exactly which links of which nodes change, and the new root |
| InsertShapes.FlipCase | practice/rbtree.h:215-224 | red uncle: after the recolouring the only possible offence is at the grandparent, two levels up, same in-order sequence |
| InsertShapes.InnerCase | practice/rbtree.h:226-231 | inner red node: the parent's rotation makes it an outer one at the same depth |
| InsertShapes.OuterCase | practice/rbtree.h:233-239 | outer red node: the grandparent's rotation leaves nothing to repair |
| RedBlackTree.RBTree.InsertFixup | practice/rbtree.h:206-272 | from one red node in an otherwise valid tree to a valid tree with the same in-order sequence; every turn lowers a measure |
| RedBlackTree.RBTree.Insert | practice/rbtree.h:274-309 | keeps the five invariants; the new node comes directly behind every node whose key is not greater |
| RedBlackTree.RBTree.InsertValue | practice/rbtree.h:311-317 | the same for a new node made from a key |
| EraseShapes.SwapCase | practice/rbtree.h:332-340 | red sibling: parent and sibling change places, the lack stays at the focus and the measure falls |
| EraseShapes.HandUpCase | practice/rbtree.h:342-349 | no red nephew: the lack moves to the parent, the measure falls |
| EraseShapes.InnerNephewCase | practice/rbtree.h:351-358 | only the inner nephew is red: it becomes the sibling, the measure falls |
| EraseShapes.BorrowCase | practice/rbtree.h:360-368 | red outer nephew: one rotation makes up for the missing black node |
| RedBlackTree.RBTree.TurnLeft | practice/rbtree.h:329-366 | one turn with the focus on the left: one of the four cases always applies; it lowers the measure, or breaks off with the missing black node made up for; in-order sequence kept |
| RedBlackTree.RBTree.TurnRight | practice/rbtree.h:367-404 | the mirrored turn |
| RedBlackTree.RBTree.EraseFixup | practice/rbtree.h:319-411 | from a subtree one black node short to a valid tree with the same in-order sequence; every continue lowers a measure, and no turn falls through all cases |
| RemovalShapes.Succeed | practice/rbtree.h:466-519 | after the pointer exchange the successor stands where the node stood, with its links and colour, and the successor's right child where the successor stood |
| RedBlackTree.RBTree.Exchange | practice/rbtree.h:475-519 | the pointer assignments of the exchange, also when the successor is the node's own child, give exactly that memory |
| RedBlackTree.RBTree.Successor | practice/rbtree.h:468-473 | the loop ends at the leftmost node of the right subtree |
| RedBlackTree.RBTree.Erase | practice/rbtree.h:413-528 | leaf, one child, two children: keeps the five invariants; the in-order sequence is the old one minus exactly that node |
| RedBlackTree.RBTree.EraseValue | practice/rbtree.h:530-538 | removes one node with the key if there is one, nothing otherwise |
| RedBlackTree.RBTree.Find | practice/rbtree.h:110-129 | succeeds exactly when the key is present, with a node of the tree that has the key |
| TreeSearch.HitExists | practice/rbtree.h:110-129 | following the comparisons finds a node with the key whenever there is one, equal keys on both sides included |
| TreeSearch.LogarithmicHeight | practice/rbtree.h:206-272 | a valid tree of n nodes is at most 2 log2(n + 1) high |
| RedBlackTree.RBTree.HeightOfTree | practice/rbtree.h:206-411 | so is every tree the operations produce |
| LockfreeQueue.Linearizable | core/threadpool/lockfree/lockfree_queue.h:46-129 | every run is one of an atomic FIFO queue: push takes effect at the link CAS, pop at the head CAS, an empty pop at the read of next; effects in order are exactly the outcomes returned |
| LockfreeQueue.NothingLost | core/threadpool/lockfree/lockfree_queue.h:46-129 | what was popped followed by what is held is what was pushed: nothing lost, duplicated or reordered |
| LockfreeQueue.EffectsInsideCalls | core/threadpool/lockfree/lockfree_queue.h:46-129 | an operation takes effect in a step of its own thread, inside its call |
| LockfreeProgress.OutcomesAnswerCalls | core/threadpool/lockfree/lockfree_queue.h:46-129 | in every run each thread's outcomes answer its calls one by one, a push with the call's own argument |
| LockfreeProgress.PopAlone | core/threadpool/lockfree/lockfree_queue.h:46-97 | from every reachable state a pop that runs alone ends with the first element, or empty-handed if there is none, helping a lagging tail on |
| LockfreeProgress.PushAlone | core/threadpool/lockfree/lockfree_queue.h:99-129 | a push that runs alone ends with its argument at the end |
| LockfreeQueue.PositionsInOrder | core/threadpool/lockfree/lockfree_queue.h:50-92 | head position <= tail position <= last position, the tail at most one behind, tags equal positions, so equal tagged pointers are the same node and conversely |
| LockfreeQueue.HeadTagCountsPops | core/threadpool/lockfree/lockfree_queue.h:83-84 | the tag of m_head is the number of pops |
| LockfreeQueue.NeverWaits | core/threadpool/lockfree/lockfree_queue.h:72-78 | a popper that saw head and tail differ always finds a next node: the waiting branch is never taken |
| LockfreeQueue.QuiescentIsExact | core/threadpool/lockfree/lockfree_queue.h:142-152 | with no call under way size is exact, the tail is the last node, and empty tells the truth |
| LockfreeQueue.SizeUpToCalls | core/threadpool/lockfree/lockfree_queue.h:88-118 | in any state the counter is the number of elements corrected by the calls that have not counted yet, modulo 2^64 |
| LockfreeQueue.SizeIsExact | core/threadpool/lockfree/lockfree_queue.h:142-147 | below 2^64 elements and threads, the counter is exact if and only if as many pushes as pops have still to count |
| LockfreeQueue.SizeCanWrap | core/threadpool/lockfree/lockfree_queue.h:117-118 | a run after which the queue is empty and size reports 2^64 - 1 |
| LockfreeQueue.StepInv | core/threadpool/lockfree/lockfree_queue.h:46-129 | every operation keeps the invariant, spurious failures of the weak CAS included |
| TaggedFreelist.PoolIsAChain | core/threadpool/lockfree/freelist.h:48-83 | the pool is an acyclic chain, and every block is on it once or in one thread's hands |
| TaggedFreelist.AllocationIsSound | core/threadpool/lockfree/freelist.h:50-66 | a successful allocation takes the top block, which nobody holds, and installs its present link, however stale the thread's view and whatever holders write into their blocks |
| TaggedFreelist.FreeIsSound | core/threadpool/lockfree/freelist.h:70-83 | a freed block goes on top of the chain and out of its holder's hands |
| TaggedFreelist.AllocateAlone | core/threadpool/lockfree/freelist.h:48-68 | from every reachable state an allocation that runs alone takes the top block, or a new one if the pool is empty |
| TaggedFreelist.FreeAlone | core/threadpool/lockfree/freelist.h:70-83 | a block freed by a thread that runs alone comes first in the pool |
| TaggedFreelist.NewOnlyFromEmpty | core/threadpool/lockfree/freelist.h:50-58 | in every interleaving a call ends with a new block only if the pool was empty at a moment inside it |
| TaggedFreelist.StepInv | core/threadpool/lockfree/freelist.h:48-83 | every operation keeps the invariant |
| LightweightSemaphore.WaitersAreMatched | core/threadpool/concurrentqueue/lightweightsemaphore.h:262-332 | waiters = posted + released but not posted + max(0, -m_count); so with a count that is not negative each waiter has a token posted or on its way |
| LightweightSemaphore.UnitsAreConserved | core/threadpool/concurrentqueue/lightweightsemaphore.h:341-402 | units acquired, left, waited for and not yet signalled add up to the initial ones and those signalled; acquired ones never exceed these |
| LightweightSemaphore.NeverTooMany | core/threadpool/concurrentqueue/lightweightsemaphore.h:363-384 | a call gets at most what it asked for |
| LightweightSemaphore.GrabsAllItMay | core/threadpool/concurrentqueue/lightweightsemaphore.h:281-285 | a compare-exchange that succeeds, in the try loop or in the spin loop, takes the smaller of what is wanted and what there is |
| LightweightSemaphore.TryReturns | core/threadpool/concurrentqueue/lightweightsemaphore.h:363-374 | in every interleaving tryWaitMany(max) returns the smaller of max and the count at its last operation, and nothing only if that count is not positive or max is 0 |
| LightweightSemaphore.TryAlone | core/threadpool/concurrentqueue/lightweightsemaphore.h:363-374 | run alone it takes them with at most two operations, whatever calls of others are under way |
| LightweightSemaphore.LessOnlyIfNoneLeft | core/threadpool/concurrentqueue/lightweightsemaphore.h:298-384 | in every interleaving a call, trying, waiting or timed, returns with less than it asked for only if its last operation leaves nothing to be had |
| LightweightSemaphore.SleepsOnlyWithTime | core/threadpool/concurrentqueue/lightweightsemaphore.h:316-319 | a call that may not wait never waits on the kernel semaphore |
| LightweightSemaphore.WaitAlone | core/threadpool/concurrentqueue/lightweightsemaphore.h:298-319 | a waiter alone that finds no units runs its spins down, subtracts one, and waits, or goes to recover it if its timeout is 0 |
| LightweightSemaphore.BlockingWaitGets | core/threadpool/concurrentqueue/lightweightsemaphore.h:386-391 | in every run, a waitMany without a timeout during which no kernel wait of its thread fails never enters the recovery loop and returns a positive number if and only if max > 0 |
| LightweightSemaphore.NothingForNothing | core/threadpool/concurrentqueue/lightweightsemaphore.h:386-391 | the assertion that the result is positive fails for max = 0, also with units available |
| LightweightSemaphore.FailedWaitGetsNothing | core/threadpool/concurrentqueue/lightweightsemaphore.h:314-326 | it fails for every max > 0 when nothing is available and the kernel wait fails |
| LightweightSemaphore.RecoveryEnds | core/threadpool/concurrentqueue/lightweightsemaphore.h:288-295 | a timed-out waiter left alone leaves the recovery loop within two operations, with a unit or with its decrement taken back, unless a release is still to be posted |
| LightweightSemaphore.QuiescentIsExact | core/threadpool/concurrentqueue/lightweightsemaphore.h:393-408 | with no call under way no stray token is left and the count is the number of units left |
| LightweightSemaphore.AdvanceKeepsTokens | core/threadpool/concurrentqueue/lightweightsemaphore.h:262-402 | every single operation trades waiters against tokens one for one |
| LightweightSemaphore.AdvanceKeepsUnits | core/threadpool/concurrentqueue/lightweightsemaphore.h:262-402 | no single operation makes or loses a unit |
| LightweightSemaphore.StepInv | core/threadpool/concurrentqueue/lightweightsemaphore.h:262-402 | every step of every thread keeps both laws over all threads |
| BlockingQueue.ElementsAreAccounted | core/threadpool/concurrentqueue/blockingconcurrentqueue.h:123-202 | elements held = units available + permits of dequeuers under way + elements enqueued and not yet signalled; enqueued = held + dequeued, element by element |
| BlockingQueue.NoRetryOnEmpty | core/threadpool/concurrentqueue/blockingconcurrentqueue.h:294-367 | all retry loops together want no more elements than the inner queue holds, single or bulk, so none ever retries on an empty queue |
| BlockingQueue.QuiescentSizeIsExact | core/threadpool/concurrentqueue/blockingconcurrentqueue.h:538-541 | with no call under way size_approx is exact |
| BlockingQueue.BulkTryAlone | core/threadpool/concurrentqueue/blockingconcurrentqueue.h:324-334 | a bulk try run alone takes the smaller of max and the number of elements, and these leave the queue |
| BlockingQueue.EnqueueAlone | core/threadpool/concurrentqueue/blockingconcurrentqueue.h:123-202 | an enqueue run alone makes its elements available |
| BlockingQueue.PullsAllItsUnits | core/threadpool/concurrentqueue/blockingconcurrentqueue.h:330-332 | the loop of a dequeue ends when it has as many elements as units, and not before |
| BlockingQueue.WaitsUntilItGets | core/threadpool/concurrentqueue/blockingconcurrentqueue.h:358-367 | a wait without a timeout does not return before it has units to pull |
| BlockingQueue.StepInv | core/threadpool/concurrentqueue/blockingconcurrentqueue.h:447-473 | every step keeps the accounting, retries and partial bulk dequeues included |
| JsonText.LiteralRoundTrip | memory/face++_pro/parseJson/cJSON.c:154-248 | reading a string literal undoes writing it, for every string without NUL |
| JsonText.Utf8RoundTrip | memory/face++_pro/parseJson/cJSON.c:192-200 | what is written for a code point is well-formed UTF-8 for exactly that code point |
| JsonText.EscapedCharacter | memory/face++_pro/parseJson/cJSON.c:179-201 | a well-formed escape of a character becomes its UTF-8 form |
| JsonText.EscapedPair | memory/face++_pro/parseJson/cJSON.c:184-201 | a well-formed escaped surrogate pair becomes the UTF-8 form of the character it stands for |
| JsonGrammar.IntRead | memory/face++_pro/parseJson/cJSON.c:95-115 | a sign and digits without leading zeros are read as the int they denote |
| JsonGrammar.ValueRoundTrip | memory/face++_pro/parseJson/cJSON.c:287-507 | wherever a rendering stands in a text, formatted or not and at any depth, reading there gives the tree back and stops behind it |
| JsonGrammar.ParseRoundTrip | memory/face++_pro/parseJson/cJSON.c:264-284 | parsing what was printed, in either mode, gives the same tree |
| JsonGrammar.DocRead | memory/face++_pro/parseJson/cJSON.c:287-439 | wherever a text of the JSON grammar stands, with blanks, escapes and digits in any of the forms the grammar allows, reading there gives the tree it denotes and stops behind it |
| JsonGrammar.UnitRead | memory/face++_pro/parseJson/cJSON.c:167-209 | every part of a string literal, a plain byte, each short escape, an escaped character or a surrogate pair in either case of digits, is read as the bytes it denotes |
| JsonGrammar.ParseReads | memory/face++_pro/parseJson/cJSON.c:264-280 | cJSON_Parse of any such text with blanks around it gives its tree |
| JsonGrammar.RenderingIsText | memory/face++_pro/parseJson/cJSON.c:302-507 | everything printed, formatted or not and at any depth, is a text of the grammar and denotes the tree printed |
| JsonAccepts.ReadIsLaid | memory/face++_pro/parseJson/cJSON.c:287-439 | the other direction: what is read as a tree is laid out as that tree, values between brackets and commas, names before colons, only blanks between them |
| JsonAccepts.ParseIsLaid | memory/face++_pro/parseJson/cJSON.c:264-280 | so cJSON_Parse succeeds only on blanks followed by such a text |
| JsonMinify.Minify | memory/face++_pro/parseJson/cJSON.c:581-596 | the buffer's text becomes the minified text in place; the write cursor never overtakes the read cursor |
| JsonMinify.MinifiedRendering | memory/face++_pro/parseJson/cJSON.c:347-507 | minifying a formatted rendering gives the unformatted one byte for byte, and leaves the unformatted one as it is |
| JsonMinify.KeptQuoted | memory/face++_pro/parseJson/cJSON.c:592 | string literals are kept whole, whatever they contain |
| JsonComments.MinifiedText | memory/face++_pro/parseJson/cJSON.c:581-596 | of a text of blanks, comments of both kinds, string literals and other bytes exactly the literals and the other bytes are left, in order |
| JsonComments.SlashCloses | memory/face++_pro/parseJson/cJSON.c:590 | a block comment whose first byte is a slash is closed by it |
| JsonCode.ReadString | memory/face++_pro/parseJson/cJSON.c:155-212 | reads the literal, escapes with bad digits skipped, with every write inside the buffer sized by the first pass |
| JsonCode.EscapeFits | memory/face++_pro/parseJson/cJSON.c:160-162 | the first pass counts at least as many bytes for an escape as it stands for |
| JsonCode.PutUtf8 | memory/face++_pro/parseJson/cJSON.c:192-200 | the switch that fills in the bytes from the back writes the code point's UTF-8 form |
| JsonCode.ReadHex4 | memory/face++_pro/parseJson/cJSON.c:140-151 | the value of four hexadecimal digits, or 0 if one of the bytes is none |
| JsonCode.ReadNumber | memory/face++_pro/parseJson/cJSON.c:96-115 | reads the integer that stands there |
| JsonCode.ReadArray | memory/face++_pro/parseJson/cJSON.c:320-345 | the loop reads the elements the grammar of the text has there |
| JsonCode.ReadObject | memory/face++_pro/parseJson/cJSON.c:406-439 | the loop reads the members the grammar of the text has there |
| JsonCode.ReadText | memory/face++_pro/parseJson/cJSON.c:264-280 | cJSON_Parse of a text |
| JsonCode.WriteString | memory/face++_pro/parseJson/cJSON.c:215-248 | the escaped literal, in a buffer whose precomputed length is exactly what is needed |
| JsonCode.WriteNumber | memory/face++_pro/parseJson/cJSON.c:118-125 | the decimal form, inside 21 bytes |
| JsonCode.WriteArray | memory/face++_pro/parseJson/cJSON.c:348-403 | the rendering of the array, every write inside the precomputed length |
| JsonCode.WriteEmptyObject | memory/face++_pro/parseJson/cJSON.c:450-459 | the rendering of the empty object at any depth, inside depth + 4 or 3 bytes |
| JsonCode.WriteObject | memory/face++_pro/parseJson/cJSON.c:442-507 | the rendering of the object, every write inside the precomputed length |
| JsonCode.WriteValue | memory/face++_pro/parseJson/cJSON.c:302-317 | the rendering of any printable tree |
| HttpParser.HttpParser.Execute | net/app/http/parser/http_parser.c:641-2155 | unless there is an error, the loop with its marks and jumps ends in the state of the plain byte automaton and its callbacks tell, byte for byte and in order, what the automaton tells; at most one mark is left at the end |
| HttpParser.HttpParser.ExecutePieces | net/app/http/parser/http_parser.c:687-710 | a stream cut anywhere into calls gives the final state and the flattened callbacks of the whole stream |
| HttpParser.HttpParser.ExecuteDeclared | net/app/http/parser/http_parser.c:687-710 | a message with a declared length, cut anywhere into calls: its body byte for byte, between the two notifications |
| HttpParser.HttpParser.ExecuteChunked | net/app/http/parser/http_parser.c:687-710 | a chunked message with its trailer, cut anywhere into calls: the chunks' data joined, and one message_complete at the very end |
| HttpParser.HttpParser.ExecutePlain | net/app/http/parser/http_parser.c:687-710 | a message without a body, cut anywhere into calls: header texts, headers_complete, one message_complete, and the next state |
| HttpParser.HttpParser.ExecuteEof | net/app/http/parser/http_parser.c:665-684 | the call with an empty buffer completes a body that ends with the connection and is an error elsewhere in a message |
| HttpParser.HttpParser.NameRun | net/app/http/parser/http_parser.c:1256-1391 | the inner loop over a header name, its fast loop included, does what the bytes one by one do |
| HttpParser.HttpParser.ValueRun | net/app/http/parser/http_parser.c:1482-1706 | likewise for a header value |
| HttpParser.HttpParser.IdentityJump | net/app/http/parser/http_parser.c:1944-1978 | the jump over a body of declared length does what its bytes one by one do |
| HttpParser.HttpParser.ChunkJump | net/app/http/parser/http_parser.c:2078-2099 | likewise for chunk data |
| HttpParser.HttpParser.EofJump | net/app/http/parser/http_parser.c:1980-1985 | likewise for a body that ends with the connection |
| HttpFraming.RunJoined | net/app/http/parser/http_parser.c:712-2123 | reading two texts one after the other is reading them joined |
| HttpFraming.AgainIsBounded | net/app/http/parser/http_parser.c:718-719 | every jump back to reexecute goes to a state further down a fixed order |
| HttpFraming.DigitsFit | net/app/http/parser/http_parser.c:1557-1566 | the overflow tests are strict enough: neither multiplication nor addition wraps around or reaches ULLONG_MAX |
| HttpBodies.AssertionsHold | net/app/http/parser/http_parser.c:1996-2111 | in every reachable state the assertions of the state visited hold: nread == 1 at a chunk's start, lengths neither 0 nor the sentinel, the chunked flag set |
| HttpBodies.RunSound | net/app/http/parser/http_parser.c:712-2123 | the invariant behind this is kept by every byte |
| HttpBodies.LengthIsExact | net/app/http/parser/http_parser.c:1436-1570 | from the blanks behind the colon, the digits of a content length leave exactly their decimal value in the parser, or are refused because the value is above its limit |
| HttpBodies.ChunkSizeIsExact | net/app/http/parser/http_parser.c:1996-2047 | likewise for a chunk size, in hexadecimal |
| HttpBodies.IdentityBody | net/app/http/parser/http_parser.c:1944-1994 | the body bytes delivered are the stream's and add up to exactly the declared length; then the message is complete |
| HttpBodies.EofBody | net/app/http/parser/http_parser.c:1980-1985 | a body that ends with the connection is delivered as it comes |
| HttpBodies.ChunkRun | net/app/http/parser/http_parser.c:1996-2116 | one chunk, with any size notation and extension, delivers its data between the two notifications and leaves the parser ready for the next |
| HttpMessages.ChunkedBody | net/app/http/parser/http_parser.c:1795-2116 | the chunked coding of any list of non-empty chunks, with any well-formed trailer, delivers exactly their concatenation, then one message_complete |
| HttpMessages.DeclaredBody | net/app/http/parser/http_parser.c:1209-1978 | the bytes of a header block with a content-length line, among any lines that neither concern the framing nor switch the protocol, and of as many body bytes as the digits say: exactly the body is delivered between headers_complete and one message_complete |
| HttpMessages.TooLongRefused | net/app/http/parser/http_parser.c:1557-1566 | a declared length above the limit is an error, whatever follows |
| HttpMessages.ChunkedMessage | net/app/http/parser/http_parser.c:1209-2116 | the bytes of a whole chunked message, header block, chunks and trailer: exactly the chunks' data is delivered, then one message_complete |
| HttpMessages.LineRun | net/app/http/parser/http_parser.c:1209-1781 | a well-formed header line that declares no length is accepted and tells exactly its name and its value from the first byte that is no blank; one that is not a transfer-encoding line leaves the framing as it was; only an upgrade line names a protocol, only a connection line that mentions the word asks for it, and only a connection line says anything about keeping the connection |
| HttpMessages.CodingNoted | net/app/http/parser/http_parser.c:1337-1348 | uses_transfer_encoding is set by exactly the names that begin with transfer-encoding, also longer ones |
| HttpMessages.EofFraming | net/app/http/parser/http_parser.c:1892-1939 | wherever a run of bytes completes a header block, the body is read to the end of the connection exactly when http_message_needs_eof then says so, or the message is a 1xx, 204 or 304 response with a coding other than chunked |
| HttpMessages.EofFramingCanDiffer | net/app/http/parser/http_parser.c:2160-2204 | the bytes of any response with such a coding: the body is read to the end of the connection, while http_message_needs_eof says so exactly for the statuses that may have a body; without other lines it is called keep-alive exactly for the others, from version 1.1 on |
| HttpMessages.NoContentNeverEnds | net/app/http/parser/http_parser.c:1892-1939 | the shortest of them: after these bytes a 204 response of HTTP/1.1 is keep-alive and yet read to the end of the connection |
| HttpOutcomes.PlainMessage | net/app/http/parser/http_parser.c:1892-1939 | the bytes of any header block that declares no body: a request or a bodiless response tells exactly its header texts, headers_complete and one message_complete; any other response goes on to the end of the connection; without a Connection line the version decides the next state |
| HttpOutcomes.PlainResponseBody | net/app/http/parser/http_parser.c:1926-1937 | behind the header block of any other response every byte is body, and no byte completes the message |
| HttpOutcomes.DeclaredSkipped | net/app/http/parser/http_parser.c:1893-1895 | when the headers callback says there is no body, a message with a declared length ends with its header block |
| HttpOutcomes.ChunkedSkipped | net/app/http/parser/http_parser.c:1893-1895 | so does a chunked one |
| HttpOutcomes.ConnectionDecides | net/app/http/parser/http_parser.c:2185-2204 | one Connection line decides, whatever the version: close closes the connection behind the message, keep-alive keeps it |
| HttpOutcomes.NotALength | net/app/http/parser/http_parser.c:1436-1441 | a content length that does not begin with a digit is refused |
| HttpOutcomes.SecondLengthRefused | net/app/http/parser/http_parser.c:1443-1446 | a second content length is refused |
| HttpOutcomes.RequestCodingRefused | net/app/http/parser/http_parser.c:1899-1915 | a request with a coding other than chunked is refused |
| HttpOutcomes.LengthWithChunked | net/app/http/parser/http_parser.c:1806-1825 | a length together with a chunked coding is refused, or, where that is allowed, the coding counts |
| HttpOutcomes.BadFirstNameByte | net/app/http/parser/http_parser.c:1209-1245 | a header line that begins with a byte no name can have is refused |
| HttpOutcomes.BadNameByte | net/app/http/parser/http_parser.c:1380-1391 | so is a name that goes on with one |
| HttpOutcomes.BadValueByte | net/app/http/parser/http_parser.c:1498-1516 | so is a value with a forbidden byte, or a carriage return there that no line feed follows |
| HttpOutcomes.BadChunkSize | net/app/http/parser/http_parser.c:1996-2008 | a chunk size that does not begin with a digit is refused |
| HttpOutcomes.ChunkTooLong | net/app/http/parser/http_parser.c:2101-2106 | so is a chunk with more data than its size |
| HttpOutcomes.BehindMessage | net/app/http/parser/http_parser.c:716-735 | behind a message empty lines are passed over, and a connection to be closed takes nothing else |
| Murmur.Compute | core/crypt/MurmurHash3.cpp:94-146 | loop, tail switch and finalization compute the hash function |
| Murmur.Unrounded | core/crypt/MurmurHash3.cpp:112-120 | a round can be undone knowing the block, and knowing the hash before |
| Murmur.Unmixed | core/crypt/MurmurHash3.cpp:132-135 | the scrambling of a block or tail can be undone |
| Murmur.Unfmixed | core/crypt/MurmurHash3.cpp:68-77 | the finalization is a bijection |
| Murmur.SeedBijection | core/crypt/MurmurHash3.cpp:94-146 | for every key, seeds and hashes determine each other |
| Murmur.OneBlockNeverCollides | core/crypt/MurmurHash3.cpp:110-122 | keys of equal length that differ only inside one aligned block never collide |
| Murmur.TailNeverCollides | core/crypt/MurmurHash3.cpp:126-136 | keys of equal length that differ only in the tail never collide |
| Murmur.HelloHash | core/crypt/MurmurHash3.cpp:94-146 | a published value that uses blocks, tail and finalization |
| PriorityQueues.NextIsBest | core/threadpool/thread_pool.h:300-308 | the item to go next has the highest score and is the earliest with that score, and is the only item with these two properties |
| PriorityQueues.DrainedIsStablySorted | core/threadpool/thread_pool.h:318-331 | popping all items sorts them by score, highest first, keeps arrival order within each score, and neither loses nor adds one |
| PriorityQueues.StablePriorityQueue.Top | core/threadpool/thread_pool.h:301-308 | the item to go next, or the failure on an empty queue |
| PriorityQueues.StablePriorityQueue.Pop | core/threadpool/thread_pool.h:318-331 | removes exactly the item to go next; empty deques leave the map; the counter stays exact |
| PriorityQueues.StablePriorityQueue.Emplace | core/threadpool/thread_pool.h:343-358 | the item comes last in arrival order |
| PriorityQueues.StaticStablePriorityQueue.Highest | core/threadpool/thread_pool.h:406-414 | the loop from the highest score down stops at the highest score held |
| PriorityQueues.StaticStablePriorityQueue.Pop | core/threadpool/thread_pool.h:404-416 | removes exactly the item to go next |
| PriorityQueues.StaticStablePriorityQueue.Emplace | core/threadpool/thread_pool.h:428-434 | the item comes last in arrival order |
| PriorityQueues.SameAnswers | core/threadpool/thread_pool.h:295-439 | over any operations with scores below Size both queues give the same answers, those of the plain queue, sizes included |

## Left out

- Weak memory orders: all machines are sequentially consistent; counters, tags and indices are unbounded integers except m_size of the linked queue, so wrap-around of tags and indices is not modelled.
- FreeList.NoBlockTwice: supposes fewer than 2^31 - 2 threads, which is what keeps the reference count out of the mark's bit.
- BlockIndex.DeliversTheQueue: the flags of a block are checked, reset and set in one step each, an element is constructed and moved in one step, and a requisitioned block is any block outside the circle; MAX_SUBQUEUE_SIZE, the mode that may not allocate, throwing constructors, failing index allocation, bulk operations and the implicit producer are not modelled.
- LockfreeQueue.Linearizable: nodes are never reused, so the effect of `destruct` after a pop is dropped, and `construct` always succeeds; with reuse the code's reads of a popped node are not covered.
- TaggedFreelist.AllocationIsSound: a block's next word is the only part of it that is modelled.
- LightweightSemaphore.WaitersAreMatched: the kernel semaphore is a number of tokens; a wait on it may fail at any time, and fairness is not modelled.
- BlockingQueue.ElementsAreAccounted: the inner queue is a bag that may refuse an enqueue and may report fewer elements than it has; consumer and producer tokens, and order, are not modelled.
- RedBlackTree.RBTree.Erase: `delete` is modelled as the node leaving the tree's set of nodes; keys are integers; the traversals that only print are left out.
- JsonGrammar.ParseRoundTrip: numbers are 32-bit integers; fractions, exponents and larger numbers are reported as failures.
- HttpMessages.DeclaredBody: the lines beside the deciding one are well formed, not folded, and no further content-length or transfer-encoding (or longer name that begins so); in a request or a 101 response an upgrade line and a connection line that mentions the word upgrade do not come together; the request method is not CONNECT and the headers callback does not ask to skip the body.
- LightweightSemaphore.BlockingWaitGets: whether a kernel wait can fail is up to the operating system, so it is a condition on the run.
- JsonCode.ReadString: an escape whose four digits run into a quote, a backslash or the end of the text, and a backslash at the end, are reported as failures: there the second pass leaves the text the first pass has measured; allocation failure and the error pointer are left out.
- JsonCode.ReadNumber: fractions, exponents and numbers beyond 32 bits are reported as failures; the source reads them in floating point.
- JsonCode.WriteArray: an entry is a string value and not a separately allocated buffer that is freed.
- JsonGrammar.DocRead: escaped NUL characters and halves of surrogate pairs, which denote nothing, are not in the grammar's strings.
- JsonAccepts.ReadIsLaid: of a string only its extent is told, not its bytes, where its escapes are bad.
- JsonMinify.Minify: an unterminated literal or block comment ends at the terminator; the source steps over it and reads memory behind the text.
- HttpParser.HttpParser.Execute: on error only the error is stated; the request and status lines, lenient mode, pausing, failing callbacks, upgrades (reported as not covered) and the limit on header size are left out, so a header block is never longer than the limit. How data is cut into callbacks, and callbacks without data, are not part of the statement.
- HttpMessages.ChunkedBody: no folded lines and no content-length in the trailer, which section 4.1.2 of RFC 7230 forbids there; chunk sizes up to the parser's own limit of 2^64 - 17.
- Murmur.Compute: blocks are read little-endian; a key is shorter than 2^31 bytes, as the int parameter demands.
- PriorityQueues.SameAnswers: scores below Size, as the array version demands of its callers; the ordered map's begin is the highest score present.
- The sockets, servers, clients, logging, URL parsing, the spin lock, sorting exercises and the 64-bit and 128-bit hashes are not modelled: foreign calls, or easier relatives of what is.
