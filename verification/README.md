# Amino: proofs about the lock-free containers and the pool

This project models the concurrent protocols of the Amino library and proves what they promise, for every
number of threads and every interleaving.

Each lock-free container is a state machine in which a step is one access to shared memory by one thread: a
load, a store, a compare-and-swap, a fetch-and-add. A schedule says which thread moves next, or starts a call.
`Exec` is the state after a schedule, and the main results are about `Exec(Init(n), sched)` for all `n` and all
`sched`. They all go the same way: an invariant of memory, an assertion for each program counter of each
thread, a rely condition that says what other threads may do, and a mark in the trace at the step where a
call takes effect. `Linearizability` states linearizability on calls and returns alone and turns such marks
into a linearization; calls whose answer becomes certain only after the step at which it was true (search, or an
add that fails) are covered by observation marks.

Safety would hold of a container that never answers, so each one also has progress results. A thread has a rank, the
number of instructions to its answer if nobody else runs; each of its instructions lowers it, so a call that runs on its
own returns. For deque, queue, ordered list and elimination stack the changes that can set other threads back are paid
for by calls (`LockFreedom`), which bounds the instructions of every run by its calls: these four are lock-free.

History variables (the abstract list of nodes, push stamps, where each node is) are part of the state, but no
step branches on them. For the deque and the ordered list this is checked by the language: `DequeObject` and
`ListObject` run the same instructions on heap nodes with pointer fields, with all history ghost.

| files | contents |
|---|---|
| `Specs.dfy` | the meaning of stacks and deques, distinct sequences, the arithmetic of C++ ints |
| `Linearizability.dfy` | traces, linearizability, and the theorem that effects yield a linearization |
| `LockFreedom.dfy` | how instructions are paid for by calls |
| `Deque.dfy`, `DequeProof.dfy`, `DequeResults.dfy`, `DequeProgress.dfy` | the CAS-based deque: anchor, lagging links, helping |
| `DequeObject.dfy` | the deque as linked heap nodes, updated in place |
| `Smr.dfy`, `SmrProof.dfy`, `SmrResults.dfy` | hazard pointers, scan, record allocation and free lists under the Treiber stack, with nodes recycled |
| `SmrGarbage.dfy`, `SmrProgress.dfy` | no node is lost, garbage is bounded, records are used again, calls answer |
| `HazardScan.dfy` | scan as the array program it is: collect, sort, unique, binary search |
| `ListCore.dfy`, `ListProof.dfy`, `OrderedList.dfy`, `ListProgress.dfy` | Michael's ordered list |
| `ListObject.dfy` | the ordered list as linked heap nodes, updated in place |
| `SplitOrder.dfy` | key arithmetic of the split-ordered set, on numbers and on 32-bit words |
| `HashSet.dfy`, `BucketChoice.dfy`, `HashSetProof.dfy`, `HashSetResults.dfy`, `HashSetProgress.dfy`, `HashSetGrowth.dfy` | the set: lazy recursive bucket creation, segments, doubling, count |
| `SoloRun.dfy`, `BadHash.dfy` | what a thread of the set does when it runs alone, and the runs in which a negative hash fails |
| `EBStack.dfy`, `EBStackProof.dfy`, `EBStackResults.dfy`, `EBStackWrap.dfy`, `EBStackProgress.dfy` | the elimination-backoff stack, and a run that wraps its counter |
| `Queue.dfy`, `QueueProgress.dfy` | the Michael-Scott queue |
| `Pool.dfy`, `PoolProgress.dfy`, `BlockingDeque.dfy`, `BlockingProgress.dfy` | the work-stealing pool and its blocking deques |
| `ParallelSort.dfy` | parallel_sort on an array |
| `ShavitQueue.dfy` | the optimistic queue as linked heap nodes, calls not overlapping |
| `SkipQueue.dfy` | the skip-list priority queue, calls not overlapping |

Shared memory is sequentially consistent: every access is one atomic step. The two ends of the deque are written
once for a side, with the few places where the source is not symmetric kept as they are. Elements are integers;
the order and equality of elements is that of integers. Failed assertions of the source are steps to a `Crash`
state that is proved unreachable (in the elimination stack, `Crash` is a read outside the arrays: see below).

Two places where the code and its surroundings disagree: `deque.h:487` names a field `m` that is declared as
`mm`, and is read as `mm`; the comment at `deque.h:44-62` writes "r.Left.Right=r" for right-incoherent where
incoherence means that the two differ, and the code treats it so.

Four things are false of the code, and each has its exact condition:

- The position counter of the elimination stack is a signed int that wraps, and its remainder is then negative. The
  machine wraps it; a probe outside the arrays is a step to `Crash`. `EBStackResults.SlotsInBounds` says exactly when
  that happens in a run, `ProbesInBounds` for which positions, `WrappedDrawFails` names an input, and
  `EBStackWrap.SomeRunCrashes` has a run, for any two slots or more.
- With a negative hash, insert and remove hand initialize_bucket a number outside the table, although all operations
  read the same cell (`BucketChoice.CellsAgree`, `NumberOutside`). `BadHash.SafeExactly` says for which hashes the set is
  safe in every run: those that are not negative, or multiples of the largest size that the table can reach. For every
  other hash `BadHashCrashes` has a run that fails; `OddHashCrashes` and `MinusOneCrashes` need one insert.
- The bound on the table size is a product of ints, which overflows when 2^30 or more elements are expected
  (`SplitOrder.CellsFitAnInt`, `TooManyExpected`). It is taken to wrap; the table then keeps its two buckets in every run
  (`HashSetResults.TwoBucketsForEver`), and the set is still a set.
- The constructor of the priority queue makes sure that the random seed is not zero, but the shift to the right keeps the
  sign, so the seed can become zero all the same: from 0xfc001fff and from no other (`SkipQueue.SeedVanishesAt`). Then
  every new node has level 1.

## Model

| member | source | states |
|---|---|---|
| `Linearizability.EffectsLinearize` | include/amino/deque.h:550-1073 | A run whose calls take effect (or could have answered) at steps that agree with a sequential specification is linearizable: some order of the calls, respecting real time and containing every call that returned, is accepted by that specification |
| `DequeResults.DequeIsLinearizable` | include/amino/deque.h:550-1073 | In every interleaving of any number of threads, pushRight, pushLeft, popRight and popLeft behave as if each took effect at once on one plain sequence |
| `DequeResults.DequeIsCoherent` | include/amino/deque.h:44-62 | In every reachable state interior links are mutual inverses, only the end named by the status may be incoherent, an unstable status means two nodes or more, empty means both ends null and stable, no node occurs twice; no assertion of the source fails |
| `DequeProof.StalledHelperIsHarmless` | include/amino/deque.h:1193-1332 | A compare-and-swap on a neighbour link that succeeds, however late, finds the anchor still equal to the copy that the helper started from, and the link it mends is that of the second node |
| `DequeProof.StepRefinesDeque` | include/amino/deque.h:550-1073 | Each step leaves the abstract sequence alone or is one push or pop at the right end, with the right answer; a pop that fails read an anchor that was empty at that moment |
| `DequeProof.StabiliseRefines` | include/amino/deque.h:1178-1332 | No step of stabilize, stabilizeRight or stabilizeLeft changes the abstract sequence |
| `DequeProof.PrevIsInner` | include/amino/deque.h:867-891 | What a pop reads as its new end, once its compare-and-swap succeeds, is the second node of the deque |
| `DequeProof.SameAnchorSameNodes` | include/amino/deque.h:381-396 | The anchor never returns to an earlier value with other nodes in between: equal anchors at two times mean equal lists of nodes |
| `DequeResults.NodesDetermined` | include/amino/deque.h:44-62 | The abstract list of nodes is a function of anchor and links, so the history variable invents nothing |
| `DequeResults.LateFixesAreHarmless` | include/amino/deque.h:1193-1332 | In every reachable state: a helper whose compare-and-swap on a neighbour link would succeed still finds the anchor it copied, and the link is that of the second node |
| `DequeResults.PopsInstallTheSecond` | include/amino/deque.h:850-911 | In every reachable state: a pop whose compare-and-swap would succeed installs the node next to the one it removes |
| `DequeResults.AnchorTellsNodes` | include/amino/deque.h:381-396 | No ABA: equal anchors at two times of a run mean the same nodes in the same order |
| `DequeObject.CasDeque.SetLink` | include/amino/deque.h:610-639 | On heap nodes: writing one link of one node leaves every other link of every node alone |
| `DequeObject.CasDeque.Instruction` | include/amino/deque.h:550-1332 | On heap nodes, with history ghost: each instruction, reading and writing links in place, does what the machine does to the nodes that the objects stand for |
| `DequeObject.NoNullRead` | include/amino/deque.h:550-1332 | The node that an instruction dereferences is never null |
| `DequeObject.Run` | include/amino/deque.h:550-1332 | A deque of heap nodes, run under any schedule, is in the state that the machine reaches by that schedule, so all that is proved of runs holds of it; it stays well formed and its trace is linearizable |
| `DequeProgress.DequeIsLockFree` | include/amino/deque.h:550-1332 | Lock-freedom: in every run of n threads with c calls there are at most (114 n + 28) c instructions, failed attempts and help for others included |
| `DequeProgress.AloneAnswers` | include/amino/deque.h:550-1332 | From every reachable state, a call under way that runs alone has returned after at most 38 instructions, whatever stalled pushes have left unstable |
| `DequeProgress.RetryMeansChange` | include/amino/deque.h:610-911 | An attempt that starts over found the anchor different from its copy |
| `DequeProgress.StepPays` | include/amino/deque.h:550-1332 | Every compare-and-swap that lands is one of three that a call can be charged with: its own, the mending of the neighbour link, and the change of status |
| `Queue.QueueIsLinearizable` | include/amino/queue.h:133-237 | In every interleaving enqueue and dequeue behave as a FIFO sequence, although dequeue answers "empty" before it looks at head again |
| `Queue.TailLagsByOne` | include/amino/queue.h:162-183 | head never passes tail, and tail is the last node or the one before it |
| `Queue.StepRefinesQueue` | include/amino/queue.h:133-237 | Each step leaves the sequence alone or is one enqueue or dequeue with the right answer |
| `Queue.ReadNextRefines` | include/amino/queue.h:208-213 | When dequeue reads a null successor the queue is empty at that moment |
| `QueueProgress.QueueIsLockFree` | include/amino/queue.h:133-237 | Lock-freedom: in every run of n threads with c calls there are at most (34 n + 16) c instructions |
| `QueueProgress.AloneAnswers` | include/amino/queue.h:133-237 | From every reachable state, a call under way that runs alone has returned after at most 17 instructions, with a lagging tail moved first |
| `QueueProgress.StepPays` | include/amino/queue.h:162-233 | A change of shared memory is the link of an enqueue, the tail that it leaves behind, or the head of a dequeue; every other instruction changes nothing |
| `SmrResults.StackIsLinearizable` | include/amino/stack.h:176-334 | With nodes recycled through free lists and heap, push, pop and peekTop behave as a LIFO sequence in every interleaving |
| `SmrResults.GuardedUntilSlotWritten` | include/amino/smr.h:798-803 | Once its owner has found a published pointer at top again, the node is neither freed nor recycled, in any continuation of any run, until that slot is written |
| `SmrResults.GuardedNodesStayLive` | include/amino/smr.h:798-803 | In every reachable state, every record with a guard holds it in its slot, and the node has not been released |
| `SmrResults.GuardedNodesAreSafe` | include/amino/stack.h:188-216 | A thread that reads a node, or its successor, holds a node that has not been released; a pop whose compare-and-swap succeeds installs the true successor of top (no ABA) |
| `SmrResults.ScanReleasesUnguarded` | include/amino/smr.h:415-468 | In every reachable state, the node that a scan is about to release is guarded by no record |
| `SmrResults.ScanKeepsFew` | include/amino/smr.h:444-462 | In every interleaving, a scan keeps at most one node for each distinct hazard pointer it has read |
| `SmrResults.ScanEndsBounded` | include/amino/smr.h:465-467 | When an interleaved scan ends, rcount is the length of the retired list and at most the number of distinct hazard pointers it has read |
| `SmrProof.ReleasedIsUnguarded` | include/amino/smr.h:415-468 | A node that a scan releases is guarded by no record, also when records were pushed while the scan read the slots one at a time |
| `SmrProof.ScanSlotSees` | include/amino/smr.h:427-439 | After reading one slot the scan has seen every guard of the records it has passed |
| `SmrResults.ScanHasRoom` | include/amino/smr.h:424-439 | The record list from any head is no longer than the count in that head, so a scan never writes past the end of plist |
| `SmrResults.NodesStayInPlace` | include/amino/smr.h:136-198 | Every node on the stack, in a free list or in a retired list is there once and nowhere else |
| `SmrProof.StepRefinesStack` | include/amino/stack.h:176-334 | Each step leaves the stack alone or is one push, pop or peek with the right answer |
| `SmrProof.StepKeeps` | include/amino/smr.h:415-803 | Every step of stack and reclamation keeps the memory invariant and what the other threads rely on |
| `SmrProof.GuardStable` | include/amino/smr.h:657-687 | A guarded node stays where it was under every step of the other threads |
| `SmrProof.SameHeadSameList` | include/amino/smr.h:571-591 | A record list with the same head is the same list, so the compare-and-swap that pushes a record cannot be fooled |
| `SmrProof.CountedUpdate` | include/amino/smr.h:538-591 | The record counter equals the number of threads that have counted themselves, through every change of one thread |
| `SmrGarbage.GarbageIsBounded` | include/amino/smr.h:657-687 | In every run, the retired nodes that have not been released are at most max(16, 2 hp_count) + 1 for each record that was counted |
| `SmrGarbage.RetiredListsAreBounded` | include/amino/smr.h:555-560 | In every run RH is at most max(16, 2 hp_count), and so is the rcount of every thread's record, with one more only while the pop that retired a node decides whether to scan, and scans |
| `SmrGarbage.LeftListsAreBounded` | include/amino/smr.h:657-687 | The same for the retired list that an exiting thread leaves in its record |
| `SmrGarbage.NoNodeIsLost` | include/amino/smr.h:136-198 | In every run, a node that was handed out and is not back with the heap is on the stack, in the free or retired list of the record that its place names, or with the thread that pushes or has popped it |
| `SmrGarbage.DecideBounds` | include/amino/smr.h:673-680 | delNode starts a scan as soon as rcount has reached RH |
| `SmrProgress.AloneAnswers` | include/amino/stack.h:176-334 | From every reachable state, a call under way that runs alone, with finding or making a record and scanning included, has returned after at most 5 hp_count + 46 instructions, whatever addresses the heap hands out |
| `SmrProgress.RecordsAreReused` | include/amino/smr.h:538-566 | In every run, a thread that needs a record while one belongs to nobody, running alone, claims one that is there, and makes none |
| `HazardScan.HPRec.FreeData` | include/amino/smr.h:188-198 | A node goes to the free list unless it is full |
| `HazardScan.Scan` | include/amino/smr.h:415-468 | A retired node is released exactly if no slot of any record holds it, and kept exactly if one does; released and kept together are the retired list, nothing lost or doubled; rcount is the length of the new list, at most the number of distinct hazards if nothing was retired twice; the free list is filled first |
| `HazardScan.Collect` | include/amino/smr.h:427-439 | plist ends up holding what stands in the slots of the records, but for null, in order and within its bounds |
| `HazardScan.HazardsAreSlots` | include/amino/smr.h:427-439 | The hazard pointers are exactly the non-null values in some slot of some record |
| `HazardScan.LookUpAll` | include/amino/smr.h:444-466 | Looking every retired node up splits the list into kept and released |
| `HazardScan.Distil` | include/amino/smr.h:440-442 | Sorting and removing duplicates keeps the set of hazard pointers |
| `HazardScan.Unique` | include/amino/smr.h:442 | std::unique on a sorted range leaves a strictly increasing prefix with the same members |
| `HazardScan.BinarySearch` | include/amino/smr.h:448 | binary_search finds exactly the members of the distinct prefix |
| `HazardScan.SplitIsRight` | include/amino/smr.h:444-462 | Kept nodes are the retired ones with a hazard pointer, released ones those without |
| `HazardScan.SplitIsExact` | include/amino/smr.h:444-462 | Kept and released together are the retired list: nothing lost, nothing doubled |
| `HazardScan.KeptIsBounded` | include/amino/smr.h:395-405 | If nothing was retired twice, at most as many nodes are kept as there are distinct hazard pointers |
| `OrderedList.ListIsLinearizable` | include/amino/ordered_list.h:181-432 | In every interleaving add, add_returnAddress, remove and search behave as operations on a set |
| `OrderedList.ListStaysSorted` | include/amino/ordered_list.h:372-432 | Following next from head meets strictly increasing keys and ends; every published node that is not marked is met |
| `OrderedList.MarkedLinksAreFrozen` | include/amino/ordered_list.h:196-209 | A next field that has been marked never changes again |
| `OrderedList.NoAssertionFails` | include/amino/ordered_list.h:372-432 | No thread ever reaches a failed assertion |
| `ListObject.SortedList.SetNext` | include/amino/ordered_list.h:277-309 | On heap nodes: writing the next field of one node leaves every other node alone |
| `ListObject.SortedList.Instruction` | include/amino/ordered_list.h:181-432 | On heap nodes, with history ghost: each instruction, reading and swapping cells in place, does what the machine does to the nodes that the objects stand for |
| `ListObject.NoNullRead` | include/amino/ordered_list.h:181-432 | The node that an instruction dereferences is never null, and no assertion fails |
| `ListObject.Run` | include/amino/ordered_list.h:181-432 | A list of heap nodes, run under any schedule, stays well formed and has a linearizable trace |
| `ListProof.StepKeeps` | include/amino/ordered_list.h:181-432 | Every step keeps the list invariant, what other threads rely on, and agrees with the effect it is said to have |
| `ListProof.AtPrev` | include/amino/ordered_list.h:402-427 | When the cell prev still holds cur unmarked, prev is on the list and cur is its successor there |
| `ListProof.NotBetween` | include/amino/ordered_list.h:402-427 | A key between two neighbours of the list is not in the set |
| `ListProof.InsertKeys` | include/amino/ordered_list.h:293-304 | A successful insertion adds exactly its key to the set |
| `ListProof.MarkKeys` | include/amino/ordered_list.h:196-199 | A successful mark removes exactly its key from the set |
| `ListProof.RemoveKeys` | include/amino/ordered_list.h:208-213 | Unlinking a marked node leaves the set alone |
| `ListProof.StepOnlyOwnKey` | include/amino/ordered_list.h:181-432 | A step of a call affects the membership of its own key only |
| `OrderedListProgress.ListIsLockFree` | include/amino/ordered_list.h:181-432 | Lock-freedom: in every run of n threads with c calls there are at most ((4 c + 12) (2 n + 1) + 2) c instructions, walks of the list included |
| `OrderedListProgress.AloneAnswers` | include/amino/ordered_list.h:181-432 | From every reachable state, a call under way that runs alone has returned after at most 4 instructions for each node of the list and 12 more, whatever others have left marked |
| `ListProgress.StepGains` | include/amino/ordered_list.h:372-432 | Each instruction of find, add and remove brings the call nearer to its answer: it starts over at most once, and meets each node once |
| `ListProgress.CutRest` | include/amino/ordered_list.h:415-425 | Unlinking a marked node leaves one node less to meet |
| `SplitOrder.RevInvolution` | include/amino/lockfree_set.h:334-340 | Reversing the bits twice gives the number back |
| `SplitOrder.ParentSmaller` | include/amino/lockfree_set.h:374-376 | A parent bucket has a smaller number, so initialize_bucket terminates |
| `SplitOrder.ParentPrecedes` | include/amino/lockfree_set.h:385-406 | The dummy of the parent precedes the dummy of the bucket |
| `SplitOrder.DummyPrecedesElement` | include/amino/lockfree_set.h:350-364 | The dummy of the bucket that a hash falls into precedes the element, for every power-of-two table size |
| `SplitOrder.BucketIsInterval` | include/amino/lockfree_set.h:350-364 | For a table of size 2^i, the keys congruent to a bucket are exactly those in one interval that starts at its dummy |
| `SplitOrder.DummiesApart` | include/amino/lockfree_set.h:350-364 | The dummies of two buckets of a table lie at least one interval apart |
| `SplitOrder.BetweenDummies` | include/amino/lockfree_set.h:350-364 | Between the dummies of neighbouring buckets lie exactly the elements of the first of them |
| `SplitOrder.DummiesAreEven` | include/amino/lockfree_set.h:350-364 | A dummy key is never an element key |
| `SplitOrder.CodeReverses` | include/amino/lockfree_set.h:334-340 | The mask-and-shift code reverses all 32 bits, for every 32-bit value |
| `SplitOrder.CodeReverseInvolution` | include/amino/lockfree_set.h:221 | The assertion that reversing twice changes nothing holds for every 32-bit value |
| `SplitOrder.CodeIsRev` | include/amino/lockfree_set.h:334-352 | binary_reverse, and so dummyKey, computes the reversal of numbers |
| `SplitOrder.CodeIsRegularKey` | include/amino/lockfree_set.h:362-364 | regularKey computes the element key of the lower 31 bits, for every 32-bit hash |
| `SplitOrder.ValOrdered` | include/amino/lockfree_set.h:70-79 | The order of 32-bit keys is the order of the numbers they stand for, both ways |
| `SplitOrder.CodeDummyPrecedes` | include/amino/lockfree_set.h:317-364 | For every 32-bit hash and every power-of-two size, the dummy key of the bucket is below the element key |
| `SplitOrder.SegmentSizeIsPower` | include/amino/lockfree_set.h:151-154 | For every int, the segment size that the constructor chooses is a power of two between 8 and 2^22 |
| `SplitOrder.CellsFitAnInt` | include/amino/lockfree_set.h:151-154 | The product of array size and segment size fits an int exactly if the expected size is below 2^30 |
| `SplitOrder.TooManyExpected` | include/amino/lockfree_set.h:243-246 | At 2^30 expected elements the segment size is 2^22, and the product is 2^31 |
| `BucketChoice.MaxSizeIs` | include/amino/lockfree_set.h:243-246 | For every segment size that the constructor chooses, the bound on the table size; with the largest it is negative and the table does not grow |
| `BucketChoice.CellsAgree` | include/amino/lockfree_set.h:416-428 | For every int hash and every table size, the cell that get_bucket reads for insert, remove and search is the same one |
| `BucketChoice.NumberOutside` | include/amino/lockfree_set.h:218-220 | The number that insert and remove hand to initialize_bucket is outside the table exactly if the hash is negative and no multiple of the size; it is then 2^32 less the remainder |
| `SplitOrder.CodeFindsHighestBit` | include/amino/lockfree_set.h:317-324 | getLargestValue finds the highest bit |
| `SplitOrder.CodeIsHighest` | include/amino/lockfree_set.h:317-324 | getLargestValue computes the largest power of two that is not larger |
| `SplitOrder.CodeIsParent` | include/amino/lockfree_set.h:374-376 | get_parent computes the bucket without its highest bit |
| `SplitOrder.CodeParentPrecedes` | include/amino/lockfree_set.h:385-406 | For every 32-bit bucket above 0, get_parent is smaller and its dummy key is smaller |
| `HashSetResults.QuietCountIsExact` | include/amino/lockfree_set.h:238-246 | When no call is under way the count is the number of elements |
| `HashSetResults.SetIsLinearizable` | include/amino/lockfree_set.h:216-306 | For hashes that are not negative, or multiples of every size that the table can reach, and every segment size that the constructor chooses, insert, remove and search behave as operations on a mathematical set in every interleaving, through any number of table doublings |
| `BadHash.SafeExactly` | include/amino/lockfree_set.h:216-306 | The set is safe in every run, for every number of threads and load factor, exactly if all hashes are of that kind |
| `BadHash.BadHashCrashes` | include/amino/lockfree_set.h:385-457 | For every other hash, some run of two threads fails an assertion or writes outside the array of segments: once the table is large enough, one insert does it |
| `BadHash.OddHashCrashes` | include/amino/lockfree_set.h:385-457 | In a new set with any load factor, one insert of an element with a negative odd hash does it |
| `BadHash.MinusOneCrashes` | include/amino/lockfree_set.h:385-457 | For example with hash -1 |
| `BadHash.InsertFails` | include/amino/lockfree_set.h:385-457 | From a table of 2^(q+1) buckets with the first only initialised, the insert pushes the parents of its number, initialises the lowest, and fails at the next, which reads the same cell |
| `BadHash.Descend` | include/amino/lockfree_set.h:386-391 | initialize_bucket goes down the parents of the number one bit at a time, by induction on their count |
| `BadHash.OnesShareCell` | include/amino/lockfree_set.h:416-419 | All these parents read the same cell |
| `HashSetResults.TwoBucketsForEver` | include/amino/lockfree_set.h:239-246 | With segments of 2^22 cells every reachable table has two buckets, whatever the hashes |
| `HashSetResults.SetIsSafe` | include/amino/lockfree_set.h:385-458 | Every filled cell points to the one dummy of its bucket, in the list and never marked; no assertion fails; no compare-and-swap lands on a local copy of a cell; segment indices stay in bounds |
| `HashSetProof.StepRefinesSet` | include/amino/lockfree_set.h:216-306 | Each step leaves the set of elements alone or is one operation with the right answer |
| `HashSetProof.OneDummy` | include/amino/lockfree_set.h:396-402 | A bucket has one dummy in the list, however many threads initialise it |
| `HashSetProof.GrowTable` | include/amino/lockfree_set.h:243-246 | Doubling keeps the table a power of two within the segments, and every dummy in its place |
| `HashSetProgress.AloneAnswers` | include/amino/lockfree_set.h:216-457 | From every reachable state, a call under way that runs alone returns, with the parents of its bucket initialised first where they are not |
| `HashSetProgress.StepGains` | include/amino/lockfree_set.h:385-457 | Each instruction brings a call nearer to its answer: down the parents to smaller buckets, back up with a shorter stack, through each list call |
| `HashSetGrowth.NoIdleGrowth` | include/amino/lockfree_set.h:238-246 | In every run, a table that has doubled had, at some time, more elements for each bucket of the half than the load factor allows |
| `HashSetGrowth.InsertGrows` | include/amino/lockfree_set.h:239-246 | An insert that has linked its element, running alone, adds one to the count, and doubles the table exactly if it is then overloaded and below its bound |
| `EBStackResults.EBStackIsLinearizable` | include/amino/ebstack.h:286-612 | In every interleaving push, pop and peekTop behave as a LIFO sequence, exchanges through the collision arrays included |
| `EBStackResults.SlotsInBounds` | include/amino/ebstack.h:276-278 | In every run, with the counter wrapping at 2^31: no thread reads outside the collision arrays, exactly if at each draw the counter was not negative or was a multiple of the number of slots |
| `EBStackResults.ShortRunsAreSafe` | include/amino/ebstack.h:276-278 | A run with at most 2^31 draws never reads outside the arrays |
| `EBStackWrap.SomeRunCrashes` | include/amino/ebstack.h:276-278 | With two slots or more, some run of two threads does read outside the collision arrays |
| `EBStackWrap.OneSlotIsSafe` | include/amino/ebstack.h:276-278 | With one slot no run does |
| `EBStackWrap.ManyDraws` | include/amino/ebstack.h:310-346 | Two threads can draw any number of positions: a push that is overtaken again and again offers its node and takes it back |
| `EBStackResults.ProbesInBounds` | include/amino/ebstack.h:351-378 | All slots that try_add and try_remove probe from a position are in bounds exactly if it is not negative or a multiple of the number of slots |
| `EBStackResults.WrappedDrawFails` | include/amino/ebstack.h:276-278 | With eight slots, draw number 2^31 + 1 reads slot -7 |
| `EBStackResults.EveryNodeIsInOnePlace` | include/amino/ebstack.h:286-548 | In every reachable state a node is in exactly one of its pusher's hands, the stack, a push slot, a pop slot, or one popper's result, and the locals of the threads agree; a popper has taken effect with the value of its node and answers it |
| `EBStackResults.DeliveredOnce` | include/amino/ebstack.h:426-496 | A node that one popper has been given is given to no other in any continuation of the run |
| `EBStackProof.TakeKeeps` | include/amino/ebstack.h:504-519 | Taking an offered node moves it from the slot to the popper, and ends both calls |
| `EBStackProof.FeedKeeps` | include/amino/ebstack.h:354-371 | Feeding a waiting pop moves the node from the pusher to the slot, and ends both calls |
| `EBStackProof.StepRefinesStack` | include/amino/ebstack.h:286-548 | Each step leaves the stack alone, or is one operation, or is a push and a pop that met |
| `EBStackProgress.StackIsLockFree` | include/amino/ebstack.h:286-548 | Lock-freedom: in every run of n threads with c calls, with any number of slots, there are at most (27 n + 7) c instructions before threads that have read outside the arrays |
| `EBStackProgress.AloneAnswers` | include/amino/ebstack.h:286-548 | From every reachable state, a call under way that runs alone has returned after at most 27 instructions, also one that offers its node or waits at a tombstone, unless it draws a position outside the arrays |
| `EBStackProgress.LooksAtDrawn` | include/amino/ebstack.h:310-362 | A push or pop whose compare-and-swap on top fails goes on to the slot it draws |
| `EBStackProgress.PushFeedsPop` | include/amino/ebstack.h:354-371 | A push that finds a tombstone there gives its node to the pop that waits, and both have taken effect without top being touched |
| `EBStackProgress.PopTakesOffer` | include/amino/ebstack.h:504-519 | A pop that finds a node offered takes it, and both have taken effect without top being touched |
| `EBStackProgress.FreeSlotsAreUsed` | include/amino/ebstack.h:377-382 | A free slot that is looked at gets the node of a push, or the tombstone of a pop |
| `PoolProof.ShutdownRunsEverythingOnce` | include/amino/tp_exec.h:80-108 | If nothing is submitted after shutdown has begun, then once active_count is 0 every submitted task has run exactly once and all queues are empty |
| `PoolProof.PoolIsOrderly` | include/amino/ws_scheduler.h:113-153 | Each queue's one null pointer is leftmost in the queue, held by one thief, or consumed by its owner; no task runs twice; the branch "not empty after end signal" is never taken and no assertion fails |
| `PoolProof.NoDeadlock` | include/amino/ws_scheduler.h:130-153 | After shutdown has put its tokens in, while some worker has not left, some worker can take a step |
| `PoolProof.StepDecreases` | include/amino/ws_scheduler.h:113-153 | After shutdown each effective step brings the pool closer to its end |
| `PoolProof.PoolComesToRest` | include/amino/tp_exec.h:80-108 | After shutdown, runs contain only boundedly many effective steps |
| `PoolProgress.ShutdownIsComplete` | include/amino/ws_scheduler.h:69-73 | In every run with a whole shutdown, whatever happens between its steps, each queue has got its null pointer: it is leftmost in the queue, with a thief, or consumed by the owner |
| `PoolProgress.ShutdownsCounted` | include/amino/ws_scheduler.h:69-73 | How many null pointers have been put in, by the number of shutdown steps |
| `PoolProgress.PoolCanFinish` | include/amino/tp_exec.h:80-108 | From every reachable state of a pool with workers the run can go on, with nothing submitted, until active_count is 0, the finish is notified, and every submitted task has run exactly once |
| `PoolProgress.RestMeansDone` | include/amino/tp_exec.h:80-108 | After a whole shutdown, when no worker can take a step, active_count is 0 and everything has run |
| `PoolProgress.OwnTaskIsRun` | include/amino/ws_scheduler.h:107-113 | A worker runs the oldest task of its own queue |
| `PoolProgress.ThiefGetsTask` | include/amino/ws_scheduler.h:130-137 | A worker with an empty queue runs the newest task of the first queue, from its own on, that is not empty, if that is one of the n - 1 it looks at |
| `PoolProgress.ThiefPutsBack` | include/amino/ws_scheduler.h:139-153 | A null pointer found there goes back where it was, and the worker waits at its own queue |
| `PoolProgress.ThiefWaits` | include/amino/ws_scheduler.h:130-153 | If those n - 1 queues are empty the worker waits: the queue before its own is never robbed by it |
| `BlockingDeque.WakeupsAreNotLost` | include/amino/bdeque.h:35-73 | Whenever a taker is parked and no pusher holds the mutex, the deque is empty, whatever is popped without the mutex |
| `BlockingDeque.NobodyIsStuck` | include/amino/bdeque.h:50-73 | While there is an element and a call under way, some thread can take a step |
| `BlockingDeque.BlockingDequeIsLinearizable` | include/amino/bdeque.h:35-73 | Pushes, pops and takes behave as operations on one sequence |
| `BlockingProgress.CallsCanFinish` | include/amino/bdeque.h:35-73 | From every reachable state, a call under way, a take if there is an element, has returned after at most 8 instructions of its own and of whoever holds the mutex |
| `BlockingProgress.AloneAnswers` | include/amino/bdeque.h:35-73 | With the mutex free it returns after at most 5 of its own |
| `BlockingProgress.HolderReleases` | include/amino/bdeque.h:35-73 | Whoever holds the mutex gives it back within 3 instructions and takes no element away meanwhile |
| `ParallelSort.Run` | include/amino/parallel_sort.h:105-208 | For a range that is not empty and at least one thread, the range ends up sorted, a permutation of its input, after as many rounds as halving takes 64 blocks a thread, or one block for each whole 32 elements, down to one |
| `ParallelSort.RoundsAreLogarithm` | include/amino/parallel_sort.h:167-206 | That number of rounds is the logarithm of the number of blocks, rounded up |
| `ParallelSort.Divide` | include/amino/parallel_sort.h:115-152 | The blocks tile the range: 64 for each thread exactly if there are 2048 elements a thread, or else as many of 32 as fit, or one; all but the first have the same length, and the first has what is left over |
| `ParallelSort.Boundaries` | include/amino/parallel_sort.h:124-152 | The vector of boundaries tiles the range; blocks after the first are one step long, and the first is longer by the remainder |
| `ParallelSort.BlocksAre` | include/amino/parallel_sort.h:115-123 | The number of blocks and their length, for every range and number of threads |
| `ParallelSort.SortBlocks` | include/amino/parallel_sort.h:128-158 | Sorting the blocks as tasks in any order leaves each block sorted and the contents the same |
| `ParallelSort.MergePairs` | include/amino/parallel_sort.h:165-194 | One round of merges, in any task order, leaves the larger blocks sorted; task numbers stay inside the vector made for the first round |
| `ParallelSort.AfterMerge` | include/amino/parallel_sort.h:168-185 | One merge finishes its pair and disturbs no other block |
| `ParallelSort.EraseMiddles` | include/amino/parallel_sort.h:196-205 | The erasing loop leaves the even boundaries and the last |
| `ParallelSort.HalvedTiles` | include/amino/parallel_sort.h:196-205 | What it leaves still tiles the range, with half as many blocks, rounded up |
| `ShavitQueue.Queue.FixList` | include/amino/queue_shavit.h:140-154 | With head unchanged, every prev from tail up to head is right afterwards, whatever it was before |
| `ShavitQueue.Queue.Enqueue` | include/amino/queue_shavit.h:191-223 | A call that does not overlap another adds its element at the end |
| `ShavitQueue.Queue.Dequeue` | include/amino/queue_shavit.h:233-312 | A call that does not overlap another takes the oldest element, or answers false exactly when there is none, in at most four rounds, while the dummy leaves and re-enters the chain |
| `ShavitQueue.Queue.RoundAtElement` | include/amino/queue_shavit.h:261-292 | A round at an element removes it, or repairs prev, or appends the dummy and comes closer to the end |
| `ShavitQueue.Queue.RoundAtDummy` | include/amino/queue_shavit.h:293-305 | A round at the dummy skips it, or repairs prev, or finds the queue empty |
| `ShavitQueue.Queue.Repair` | include/amino/queue_shavit.h:272-275 | fixList, called by dequeue, keeps the queue well formed |
| `SkipQueue.PriorityQueue.Insert` | include/amino/lockfree_priorityqueue.h:320-442 | A call that does not overlap another inserts its element, an equal key getting the new value; every level stays sorted and a sub-list of the level below; a new key stands at a node as high as the random level says |
| `SkipQueue.PriorityQueue.DeleteMin` | include/amino/lockfree_priorityqueue.h:453-556 | A call that does not overlap another removes and answers the least element, or answers false exactly when the queue is empty, and keeps every level |
| `SkipQueue.InsertIntoMembers` | include/amino/lockfree_priorityqueue.h:372-386 | After insert the queue holds the new element and the old ones of other keys, still strictly increasing |
| `SkipQueue.InsertIntoIs` | include/amino/lockfree_priorityqueue.h:371-410 | Inserting in front of the first key that is not smaller, or replacing an equal one, is insertion into a sorted sequence |
| `SkipQueue.PriorityQueue.ScanKey` | include/amino/lockfree_priorityqueue.h:603-614 | scanKey stops between the last smaller key and the first that is not smaller |
| `SkipQueue.PriorityQueue.LinkAbove` | include/amino/lockfree_priorityqueue.h:415-436 | Linking on the higher levels starts at the remembered nodes and keeps what the lower levels hold |
| `SkipQueue.PriorityQueue.MarkNode` | include/amino/lockfree_priorityqueue.h:480-516 | Marking the victim's value and links changes no level |
| `SkipQueue.PriorityQueue.CutAll` | include/amino/lockfree_priorityqueue.h:528-550 | Cutting the victim out from the top level down leaves a queue without it |
| `SkipQueue.LinkIn` | include/amino/lockfree_priorityqueue.h:408-432 | Linking a node in at the place of its key keeps a level sorted and connected |
| `SkipQueue.CutFirst` | include/amino/lockfree_priorityqueue.h:541-544 | Cutting out the first node of a level leaves the rest of the level |
| `SkipQueue.RandomLevel` | include/amino/lockfree_priorityqueue.h:694-705 | randomLevel is 1 and one more for each one bit in a row, from bit 1 of the new seed up, but at most MAXLEVEL - 1 |
| `SkipQueue.SeedVanishesAt` | include/amino/lockfree_priorityqueue.h:694-698 | The seed becomes 0, where it stays, exactly from 0 and from 0xfc001fff |
| `SkipQueue.ShiftedIs` | include/amino/lockfree_priorityqueue.h:699-702 | Shifting an int right step by step shows its bits one after the other, whatever its sign |

## Left out

- Weak memory order, fences, the PPC branches and the torn-read loop in `AnchorType::copyTo`: the anchor is copied in one step.
- `HashSetProgress.AloneAnswers`: no bound is given for the number of instructions, and for the set and for the stack with hazard pointers instructions are not counted against calls as they are for the other four.
- Recycling of nodes for deque, queue, ordered list, set and elimination stack: nodes are fresh there. Recycling is proved for `smr.h` with `stack.h`, where K is 1; the hazard pointers of the other containers are therefore not modelled.
- `helpScan` and `mergeList` (never called), the free list of `SMR_Node`s, aligned allocation, and the other values of K.
- empty, size, peek and iteration operations other than peekTop; `push_front` of the list; `ShavitQueue::size`.
- `HashSetResults.SetIsLinearizable`: for the hashes of `BadHash.SafeExactly`; what the program does after a failed assertion or a write outside the array of segments is not modelled. The set's elements are compared as integers, and `initialize_bucket`'s recursion is a stack in the thread.
- `EBStackResults.EBStackIsLinearizable`: a thread that reads outside the arrays stops there; what the program does after such a read is not modelled.
- `SmrResults.StackIsLinearizable`: destructors that run on user data are not modelled.
- `PoolProof.ShutdownRunsEverythingOnce`: one shutdown and no submission after it has begun; halt, a second shutdown, submission that races with shutdown (the TODO at `tp_exec.h:192`), a `randInd` that has become negative, and waiting for termination are not modelled. The queues are the sequences that `DequeResults` and `BlockingDeque` show them to be.
- `ShavitQueue.Queue.Dequeue`: calls do not overlap, so the compare-and-swaps succeed; overlapping calls are not modelled.
- `SkipQueue.PriorityQueue.DeleteMin`: calls do not overlap, so `readNext` never has to help; `helpDelete`, `prev` and `validLevel` are not modelled, and an element is a priority with a tag that comparisons do not see. Nodes are numbers in a sequence, not objects.
- `ParallelSort.Run`: the local sort and the merge are insertion based where the source calls std::sort and std::inplace_merge; tasks run one at a time in any order, which is all that matters for ranges that do not overlap; for an empty range the source divides by zero, and 64 times the number of threads is taken not to overflow.
- The queue, the stack with its records, the elimination stack, the hash set, the pool and the blocking deque are step machines on values, one shared access a step; update in place through pointers, and aliasing of node objects, is captured for the deque and the ordered list (`DequeObject`, `ListObject`), for scan (`HazardScan`) and for `ShavitQueue`.
- `lockfree_dictionary.h`, `list.h`, `sync_list.h`, `vector_inc.h`, `aasort.h`, accumulate, transform, foreach, counter, future and task wrappers, locks, atomics headers, backoff, cycle counters, logging, examples: they would add only easy members, or are assembler.
