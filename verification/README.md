# The PA-tree and its companions, in Dafny

This project models the parts of an NVM-oriented B+ tree library where ordering, sharing or in-place change make
correctness hard to see, and proves what they promise for every input and every run.

**The pull-based tree** (`Nodes` to `RunLoop`). One thread runs many insert and search contexts, each an explicit state
machine. A context takes barriers on nodes hand over hand, first optimistically and then, if the leaf is full or the key is
left of everything, pessimistically. It gives ancestors back early, carries splits up a stack of node images, and may replace
the root while others wait for it. `Steps` has one function for each state of `run`; `Scheduler` has the events (a client
announces or pushes a request, a context is admitted or runs one state, an I/O completes in any order); a run is any sequence
of enabled events. Reads and writes take effect when they are submitted. A state also records, as history, each node's key
range, the leaf writes in order, the requests issued and done, and what each search reported.

The invariant `Core` ties the stored blocks, the barriers and the place of every context together; `RunsKeepCore` proves it of
every state of every run, and `Guarantees`, `Occupancy`, `Ledger`, `Fifo` and `Completion` draw from it: a well-formed tree,
half full and with its leaves chained, whose contents are the leaf writes; no write outside what the writer holds; no deadlock;
every request completes, exactly once, in whatever order events follow; queues served in order; and the exact condition under
which a search is right. `Reports` follows every search from its start to the one report it makes, `Clients` ties all this to
what the clients asked for, over runs with their events, and `Flushes` shows that a request is not done before its writes are.
`StaleSearch` has a run in which a search is wrong: it reads the root once and never again, so that a root split while it waits
can move its key out of reach. `Barriers` and `RunLoop` are the same barriers and scheduler as classes changed in place, proved
against the step system.

**The sequential tree** (`SeqTree` to `NodeArrays`, and `BorrowBounds`). Insertion, deletion with borrowing, merging and root
collapse, search, the leaf chain and the range iterator, against a sorted sequence of entries. Trees are values; `NodeArrays`
has the leaf and inner nodes as classes over arrays, with the shifting loops, proved against the same functions.

**Companions.** The reference-counted free list (`FreeList`) and the optimistic dequeue (`Dequeue`) of the bundled queue, as
step systems of any number of threads; the block cache and the file store over it (`BlockCache`, `StoreRuns`, `FileStore`); node
serialization (`NodeCodec`); the locks of the concurrent tree (`LockCoupling`); the latency histogram (`Histogram`).

What the proofs found, where code and intention part:

- A search can miss a key that is in the tree, as above. It is right exactly if its key was still below the upper bound of the
  node it started from when it got its first barrier, or if the key is absent (`SearchReported`); starting from what is still
  the root is enough.
- The concurrent tree reads the root and the height one after the other. If the root is split in between, an optimistic insert
  can take its leaf for an inner node and write it under a read lock (`StaleHeight`). It does so exactly if it writes at all and
  the height it was told last is not that of its path (`OptimisticIsProper`).
- State 9 with a split child and no parent falls through to state 10. No run gets there (`TrueParent`).
- State 13 leaves the parents of the failed attempt on the stack. They are never written and absorb no split
  (`ForgottenParents`).
- With an inner root, a range search from below its first key leaves the leaf reference unset (`RangeUnset` has such a tree).
  The iterator exists exactly otherwise (`RangeSearch`).
- On a hit the cache sets the dirty bit in a copy of the unit. With any capacity, a block read, then written, then pushed out by
  another write is lost (`LostWrite`). Every read that could be made at any point of a sequence of calls is right exactly if no
  call is lossy, which a caller can tell from the calls alone (`ExactlyLossy`): a write that misses and pushes out a block that
  came in by a read and was since written with other contents. With the bit stored nothing is ever lost (`StoredIsIntact`).
- An inner child's first key equals its separator, also after deletions (`DeleteSnug`); a leaf's first key need not.
- When an inner node borrows from its right sibling, the shift loop at src/tree/inner_node.h:204 reads one slot past the arrays
  exactly if that sibling is full (`ReadsFit`, `InnerNode.TakeFirstOf`). A deletion does so exactly if it goes into a first
  child, leaves that inner node too small, and finds the child next to it full (`OverreadsIffExposed`); that a node is left too
  small can itself be told from the tree before the deletion (`UnderflowIffShrinks`). `DeleteOverreads` has a tree of three
  levels where it happens; below three levels it cannot (`LowIsSafe`).

The pull-based model is for any CAPACITY of at least 2, the sequential one for any even CAPACITY of at least 4. Keys and values
are integers.

## Model

| member | source | states |
|---|---|---|
| Scheduler.RunsKeepCore | src/tree/pull_based_b_plus_tree.h:454-824 | every state of every run, under any interleaving of steps, grants and I/O completions, satisfies the invariant: sound tree, barriers that count their holders, every context where its state says it is |
| Guarantees.IdleRun | src/tree/pull_based_b_plus_tree.h:454-824 | whenever no context is in flight, the blocks at the root form a B+ tree of height `depth_`, every node below the root at least half full, the sibling addresses link the leaves in order, lookups are those of the leaf writes applied in order, and these are the writes of the completed insertions, once each |
| Guarantees.IdleTree | src/tree/pull_based_b_plus_tree.h:781-803 | the same from the invariant and the occupancy alone: block tree well formed by levels, separators, capacity and half-fullness, leaf chain in order, contents equal to the log |
| Clients.IssuedAsAsked | src/tree/pull_based_b_plus_tree.h:138-153 | in every run the j-th request issued has the kind, the key and the value of the j-th one a client asked for, and there are no others |
| Clients.ClientsGet | src/tree/pull_based_b_plus_tree.h:454-824 | in every run, whenever no request is pending, looking up a key in the tree gives the value of the last leaf write among the insertions of that key that clients asked for, and nothing if and only if no client inserted it |
| Clients.WriteWasAsked | src/tree/pull_based_b_plus_tree.h:557-585 | every leaf write of every run is that of an insertion a client asked for, with its key and value |
| Clients.DoneIsWritten | src/tree/pull_based_b_plus_tree.h:557-585 | every insertion completed has exactly one leaf write, with the key and value its client asked for |
| Clients.WritesInOrder | src/tree/pull_based_b_plus_tree.h:454-824 | an insertion completed before another was asked for is written before it |
| Clients.AdmittedInOrder | src/tree/pull_based_b_plus_tree.h:1141-1164 | in every run the requests pushed are those admitted, in the same order, followed by those still queued |
| Flushes.Submits | src/tree/pull_based_b_plus_tree.h:557-735 | a step that submits blocks for writing leaves its context with as many I/Os outstanding |
| Flushes.WrittenBeforeDone | src/tree/pull_based_b_plus_tree.h:747-803 | in every run, between a step that submits blocks for writing and the end of its request, at least as many I/Os of that context complete as blocks were submitted |
| Occupancy.RunsKeepStocks | src/tree/pull_based_b_plus_tree.h:557-800 | in every state of every run, also in the middle of splits, every block other than the root, and a root being divided, holds at least CAPACITY / 2 entries or children, and an inner root at least two children |
| Guarantees.IsolationInRun | src/tree/pull_based_b_plus_tree.h:507-521 | in every run a step changes only blocks that its context holds for writing and nobody else holds, or that it allocates in that step, despite the early release of ancestors |
| Guarantees.Isolation | src/tree/pull_based_b_plus_tree.h:644-735 | the same for every block a step submits a write for, changed or not |
| Guarantees.UntouchedBlocks | src/tree/pull_based_b_plus_tree.h:566-582 | a block no write is submitted for stays as it is |
| Guarantees.NoDeadlock | src/tree/pull_based_b_plus_tree.h:460-527 | while a context is in flight, some context can run or has an I/O outstanding: waiting goes down the levels and ends at a holder that moves |
| Guarantees.NeverStuck | src/tree/pull_based_b_plus_tree.h:1194-1222 | in every run, while a request is pending some event other than a new request is enabled |
| Completion.EventLowers | src/tree/pull_based_b_plus_tree.h:454-824 | every push, admission, I/O completion and step of a context lowers a measure of what is left to do, also where a new root sends others back to start over |
| Completion.EveryRequestCompletes | src/tree/pull_based_b_plus_tree.h:1194-1222 | from any state of any run, whatever the order of the events that follow, once no new request comes in there is a point where none is pending and every request issued is done |
| Guarantees.SearchInRun | src/tree/pull_based_b_plus_tree.h:902-1042 | in every run a reporting search gives the map's answer if and only if its key was in reach when it got its first barrier or is absent; if it started from what was still the root it is right; it holds at most two barriers |
| Reports.SearchReported | src/tree/pull_based_b_plus_tree.h:902-1042 | in every run every completed search has made exactly one report, while in flight and after its first barrier; what it reported is the answer of the map at that moment if and only if its key was then, at its first barrier, below the upper bound of the node it started from, or is absent; if that node was the root at its first barrier, always |
| Reports.RunsKeepTold | src/tree/pull_based_b_plus_tree.h:947-1042 | in every state of every run the searches done are, in order, those that have reported |
| Clients.SearchSees | src/tree/pull_based_b_plus_tree.h:902-1042 | a search that started at the root reports the value of every insertion of its key completed before the search was asked for, or of a later leaf write |
| Guarantees.SearchAnswer | src/tree/pull_based_b_plus_tree.h:947-1042 | the same condition in any state of the invariant |
| Guarantees.SearchAnswerStable | src/tree/pull_based_b_plus_tree.h:933-966 | from the read of the leaf to the report, the answer a search will give is the map's answer at every moment |
| Guarantees.SearchHoldsTwo | src/tree/pull_based_b_plus_tree.h:933-946 | a search never holds more than two barriers, all for reading |
| SearchSteps.AnswerIs | src/tree/pull_based_b_plus_tree.h:947-1042 | exactly what a search reports: the map's answer if its key was in reach, and not found otherwise |
| StaleSearch.StaleAnswer | src/tree/pull_based_b_plus_tree.h:902-907 | a run from the empty tree at whose end a search is done and has reported not found although its key is in the map |
| Guarantees.TrueParent | src/tree/pull_based_b_plus_tree.h:630-719 | when a split goes up the stack is not empty, the parent popped is the only parent of the split node at the position stored, it is held for writing, and its image is the stored block but for the first key this insertion lowered |
| Guarantees.ForgottenParents | src/tree/pull_based_b_plus_tree.h:722-745 | parents left by a failed optimistic attempt are unmodified, so never written, and are never the parent a split is put into |
| Guarantees.OnceInRun | src/tree/pull_based_b_plus_tree.h:1141-1164 | in every run each issued request is in exactly one place, makes at most one leaf write and exactly one if it is a completed insertion; with none pending all are done |
| Ledger.RunsKeepBooks | src/tree/pull_based_b_plus_tree.h:747-803 | in every run the requests issued are those being submitted, queued, in flight and done; the leaf writes are those of insertions done or past their leaf; free slots and contexts match |
| Ledger.OnePlace | src/tree/pull_based_b_plus_tree.h:1141-1164 | every issued request is in exactly one of the places, once |
| Ledger.OneWrite | src/tree/pull_based_b_plus_tree.h:557-585 | no leaf write happens twice, and a completed insertion has made its own |
| Ledger.AllDone | src/tree/pull_based_b_plus_tree.h:1194-1196 | `pending_request_` is never negative, and at 0 every issued request has completed and the leaf writes are the issued insertions: the scheduler stops with nothing outstanding |
| Ledger.PoolHasOne | src/tree/pull_based_b_plus_tree.h:1078-1099 | the assertions on the context pools hold: when a slot counts as free, a context of the kind asked for is free |
| Fifo.InOrder | src/context/context_barrier.h:95-123 | any step serves a prefix of every barrier's queue, gives nobody a token out of turn, and only the stepping context can join, at the end |
| Guarantees.BarriersInRun | src/context/context_barrier.h:39-67 | in every run each counter is the number of contexts holding such a token, a writer is alone, the front of a queue is truly blocked, and whoever waits is queued at the node it wants |
| Guarantees.PlaceInRun | src/tree/pull_based_b_plus_tree.h:747-803 | in every run each context is in one of pool, ready list, I/O or a barrier queue, in two only between the two writes of a split; a state that waits for writes is left exactly when none is outstanding; nobody is queued twice or at another node than it wants |
| Exclusion.Exclusive | src/context/context_barrier.h:125-141 | whoever holds a node for writing is the only holder |
| Releases.ReleaseRest | src/tree/pull_based_b_plus_tree.h:831-850 | giving back any number of tokens, with every grant it sets off, keeps the invariant, the tree, the rest of this context and the place of every other |
| TreeWrites.PutLeafSound | src/tree/pull_based_b_plus_tree.h:558-568 | putting an entry in a leaf with room keeps the whole tree sound |
| TreeWrites.PutLeafRepresents | src/tree/leaf_node.h:99-122 | and changes the map at that key alone |
| TreeSplits.CutLeafSound | src/tree/pull_based_b_plus_tree.h:569-585 | splitting a full leaf keeps the tree sound, with the right half pending at its parent |
| TreeSplits.CutLeafRepresents | src/tree/leaf_node.h:124-158 | and changes the map at the inserted key alone |
| TreeLinks.LinkSound | src/tree/pull_based_b_plus_tree.h:644-662 | linking a pending half into a parent with room keeps the tree sound |
| TreeLinks.CutLinkedSound | src/tree/pull_based_b_plus_tree.h:663-719 | splitting a full parent around the new child keeps the tree sound |
| TreeLinks.LowerSound | src/tree/pull_based_b_plus_tree.h:604-607 | lowering a parent's first key to a key below everything keeps the tree sound |
| TreeLinks.RaiseSound | src/tree/pull_based_b_plus_tree.h:785-800 | publishing a new root over the two halves of the old one keeps the tree sound |
| DescentSteps.EnterCore | src/tree/pull_based_b_plus_tree.h:489-527 | after a barrier is granted: starting over if the root moved, and giving back ancestors, keep the invariant |
| DescentSteps.DescendCore | src/tree/pull_based_b_plus_tree.h:587-620 | going down one level keeps it, with the parent's image on the stack |
| LeafSteps.InsertLeafCore | src/tree/pull_based_b_plus_tree.h:542-586 | inserting at the leaf, with or without a split, keeps it |
| RiseSteps.RiseCore | src/tree/pull_based_b_plus_tree.h:623-746 | state 9, all branches, keeps it |
| RiseSteps.WriteDoneCore | src/tree/pull_based_b_plus_tree.h:747-759 | state 10 is left, for state 9, exactly when no write is outstanding, and keeps it |
| RiseSteps.GrowRootCore | src/tree/pull_based_b_plus_tree.h:781-803 | state 12 is left, for state 11, exactly when no write is outstanding, and keeps it, though the new root has no barrier |
| SearchSteps.RunSearchCore | src/tree/pull_based_b_plus_tree.h:909-1049 | every state of a search keeps it |
| RunLoop.RunCloser | src/tree/pull_based_b_plus_tree.h:454-824 | every state of one `run` call brings the context closer to a wait, so the recursion ends |
| RunLoop.Engine.RunContext | src/tree/pull_based_b_plus_tree.h:454-824 | `run` ends; it is a sequence of steps of its context, up to the first that leaves it ready once less, and no other context is ready less often; the invariant holds |
| RunLoop.Engine.ProcessReady | src/tree/pull_based_b_plus_tree.h:1200-1222 | every context of a batch of ready ones gets its turn, in order, and is still ready when it comes: the states between are those before and after one `run` call each |
| RunLoop.Engine.Admission | src/tree/pull_based_b_plus_tree.h:1141-1164 | the first requests of the queue are admitted, each to a free context, in order, until the limit, the free slots or the queue are used up; invariant and books hold |
| Barriers.ServeIs | src/context/context_barrier.h:95-123 | offering serves a prefix of the queue, counts it, and leaves a front that is truly blocked: no wakeup is lost |
| Barriers.ServeExclusive | src/context/context_barrier.h:95-123 | a writer excludes all others, before and after |
| Barriers.ServedTogether | src/context/context_barrier.h:108-120 | requests served together are all reads, or one write |
| Barriers.OfferIsServe | src/context/context_barrier.h:95-123 | offering in the step system does to a barrier what the class does |
| Barriers.ContextBarrier.SetRead | src/context/context_barrier.h:39-47 | granted with a token if and only if there is no writer, otherwise queued last |
| Barriers.ContextBarrier.SetWrite | src/context/context_barrier.h:49-57 | granted with a token if and only if nobody holds the node, otherwise queued last |
| Barriers.ContextBarrier.Offer | src/context/context_barrier.h:81-123 | the contexts served get their tokens, move to their next states and become ready in queue order; nobody else is touched |
| Barriers.ContextBarrier.RemoveRead | src/context/context_barrier.h:59-62 | one reader less, then the queue is served as far as possible |
| Barriers.ContextBarrier.RemoveWrite | src/context/context_barrier.h:64-67 | one writer less, then the queue is served as far as possible |
| Barriers.BarrierManager.GetOrCreate | src/context/barrier_manager.h:67-77 | growing the table and creating a barrier changes no barrier that can be seen |
| Barriers.BarrierManager.RequestRead | src/context/barrier_manager.h:35-38 | granted with a token if and only if no writer has the node, otherwise queued last there; nothing changes at any other node |
| Barriers.BarrierManager.RequestWrite | src/context/barrier_manager.h:30-33 | the same for writing, granted if and only if nobody has the node |
| Barriers.BarrierManager.RemoveRead | src/context/barrier_manager.h:40-43 | one reader less at the node; the contexts served are the longest prefix of its queue that can be, each gets its token and its next state, and they join the ready list behind those already there, in queue order; nothing changes at any other node |
| Barriers.BarrierManager.RemoveWrite | src/context/barrier_manager.h:45-48 | the same with one writer less |
| SeqTree.SearchIsLookup | src/tree/inner_node.h:93-100 | search in a well-formed tree is lookup in its entries |
| SeqTree.RemoveLookup | src/tree/leaf_node.h:200-228 | removal changes the binding of its key alone |
| SeqInsert.InsertOk | src/tree/inner_node.h:276-350 | insertion through any chain of splits leaves well-formed trees (order, equal depth, occupancy, capacity) whose entries are the old ones with the key bound |
| SeqDelete.BalanceOk | src/tree/inner_node.h:189-253 | borrowing or merging two neighbours keeps their entries and gives each the required occupancy |
| SeqDelete.DeleteOk | src/tree/inner_node.h:120-187 | deletion removes exactly its key, says whether it was there, and keeps the tree well formed but for a node that reports underflow |
| SeqChain.InsertLinks | src/tree/leaf_node.h:131-132 | an insertion splits at most one leaf and links the new one in after it |
| SeqChain.DeleteLinks | src/tree/leaf_node.h:278-290 | a deletion merges at most two leaves and takes the right one out of the chain |
| SeqChain.ChainSplit | src/tree/leaf_node.h:131-132 | a leaf chain stays one through a split |
| SeqChain.ChainMerge | src/tree/leaf_node.h:285 | and through a merge |
| SeqRange.InsertSnug | src/tree/inner_node.h:276-350 | insertion keeps the first key of every inner child equal to its separator |
| SeqRange.DeleteSnug | src/tree/inner_node.h:120-187 | so does deletion |
| SeqRange.LocateKeyOk | src/tree/inner_node.h:103-110 | the search for a range's start reaches a leaf if and only if the root is a leaf or its first key is not above, and then points at the first entry not below |
| BPlusTree.InsertTree | src/tree/vanilla_b_plus_tree.h:57-80 | with the new root and depth after a split: a whole tree of that height, changed at one key, whose leaf chain is the old one or has the block handed out linked in after the leaf that was split |
| BPlusTree.DeleteTree | src/tree/vanilla_b_plus_tree.h:83-116 | with the collapse of a root of one child: a whole tree of the new height, without the key |
| BPlusTree.DeepIsFull | src/tree/vanilla_b_plus_tree.h:57-116 | a tree of height at least 2 holds at least 2 * (CAPACITY / 2) ^ (depth - 1) keys |
| BPlusTree.VanillaTree.Insert | src/tree/vanilla_b_plus_tree.h:57-80 | binds its key and changes no other; the leaves are where they were, but for at most one new one in the block handed out |
| BPlusTree.VanillaTree.Delete | src/tree/vanilla_b_plus_tree.h:83-116 | unbinds its key, changes no other, says whether it was bound; the leaves are where they were, but for at most one merged into its left neighbour |
| BPlusTree.VanillaTree.Search | src/tree/vanilla_b_plus_tree.h:120-124 | gives the binding of the key |
| SeqIterator.ScanIsRange | src/tree/vanilla_b_plus_tree.h:163-171 | a scan from the first entry not below gives exactly the entries of the range, ascending |
| SeqIterator.Iterator.Next | src/tree/vanilla_b_plus_tree.h:192-211 | walks the leaf chain, over empty leaves too, to the next entry |
| SeqIterator.RangeSearch | src/tree/vanilla_b_plus_tree.h:163-171 | an iterator exists if and only if the root is a leaf or its first key is not above `low`; it starts at the first entry not below `low` |
| SeqIterator.ReadRange | src/tree/vanilla_b_plus_tree.h:192-211 | calling `next` up to the first false gives exactly the entries of the range, ascending |
| NodeArrays.ShiftUp | src/tree/leaf_node.h:88-94 | the slots from a position on move up by one, in place |
| NodeArrays.LeafNode.SearchPosition | src/tree/leaf_node.h:417-441 | bisection finds the first entry not below the key |
| NodeArrays.LeafNode.Insert | src/tree/leaf_node.h:72-97 | the array holds the entries with the key bound; refused exactly if full and absent |
| NodeArrays.LeafNode.InsertWithSplit | src/tree/leaf_node.h:99-158 | the two arrays hold what the tree function says, entry for entry |
| NodeArrays.LeafNode.DeleteKey | src/tree/leaf_node.h:200-228 | the array without the key, and whether the leaf is too small |
| NodeArrays.LeafNode.Balance | src/tree/leaf_node.h:230-290 | the two arrays after borrowing or merging |
| NodeArrays.InnerNode.LocateChild | src/tree/inner_node.h:515-542 | bisection finds the last key not above |
| NodeArrays.InnerNode.InsertChild | src/tree/inner_node.h:255-274 | key and child put in, the rest moved up |
| NodeArrays.InnerNode.TakeBack | src/tree/inner_node.h:276-350 | the arrays after the outcome of a child is taken in, by linking or by a split |
| NodeArrays.InnerNode.AfterBalance | src/tree/inner_node.h:120-187 | the arrays after two children were balanced |
| NodeArrays.InnerNode.TakeFirstOf | src/tree/inner_node.h:194-215 | borrowing from the right with the shift loop as written: all its reads are within the arrays if and only if the sibling is not full, and then the two nodes are those of the tree function |
| NodeArrays.InnerNode.Balance | src/tree/inner_node.h:189-253 | with the loops as written, stopped at a read past the arrays: stopped if and only if this node is too small and its sibling full, otherwise the two nodes after borrowing or merging |
| BorrowBounds.ReadsFit | src/tree/inner_node.h:204-208 | every slot the loop reads is below CAPACITY if and only if the sibling holds fewer than CAPACITY children |
| BorrowBounds.UnderflowIffShrinks | src/tree/inner_node.h:120-187 | below the root of every well-formed tree a deletion reports underflow if and only if, in the tree before it, the key is there, every node from here down to its leaf has the least size allowed, and so has the neighbour each of the nodes below would be balanced with |
| BorrowBounds.OverreadsIffExposed | src/tree/inner_node.h:120-215 | in every well-formed tree a deletion reads past the arrays of a node if and only if somewhere on its path it goes into the first child, the tree before it is such that this inner node is left too small, and the child next to it is full |
| BorrowBounds.LowIsSafe | src/tree/inner_node.h:194-215 | in a tree of less than three levels no deletion does |
| BorrowBounds.DeleteOverreads | src/tree/inner_node.h:194-215 | a whole tree of three levels with CAPACITY 4 and a key whose deletion balances a node of one child against one of four, reading past its arrays |
| BorrowBounds.RangeUnset | src/tree/vanilla_b_plus_tree.h:163-171 | a whole tree with an inner root in which a range search from below its first key reaches no leaf |
| FreeList.StepInv | src/utils/concurrent_queue.h:1378-1457 | every atomic step of every thread keeps: a node's count is its references plus one for the list, a node on its way has one thread moving it, the links from the head are the list |
| FreeList.NeverTakenTwice | src/utils/concurrent_queue.h:1392-1426 | in every run, for any number of threads, between two `try_get` calls that return one node there is an `add` of it |
| FreeList.TakenIsClear | src/utils/concurrent_queue.h:1411-1417 | the assertion after a successful swap holds, and the two references then given back are there |
| FreeList.NothingLost | src/utils/concurrent_queue.h:1432-1457 | with no call in progress a node is on the list if and only if it was given back last |
| FreeList.AloneGets | src/utils/concurrent_queue.h:1392-1426 | after any run, whatever calls are in progress, a `try_get` nobody interferes with returns the first node of the list and takes it off, or returns nothing if and only if the list is empty; other threads are where they were, and an empty list leaves everything as it was |
| FreeList.AloneGetsGiven | src/utils/concurrent_queue.h:1392-1426 | with no other call in progress it returns a node if and only if some node was given back last, and then such a one |
| FreeList.AloneGetEnds | src/utils/concurrent_queue.h:1392-1426 | such a call ends: from any reachable state its steps are enabled up to its return |
| FreeList.AloneAdds | src/utils/concurrent_queue.h:1378-1457 | an `add` nobody interferes with puts the node first on the list if no thread has a reference to it, and otherwise leaves it for the last of these to put there |
| FreeList.EmptyHanded | src/utils/concurrent_queue.h:1392-1426 | in every run, whatever other threads do, a `try_get` returns nothing only if the list was empty at some moment of the call |
| Dequeue.HeadNeverPassesTail | src/utils/concurrent_queue.h:1889-1981 | in every run of one producer and any number of consumers, single and bulk, `headIndex` plus what is granted and not yet fetched never exceeds `tailIndex`, though each consumer reads a stale overcommit |
| Dequeue.OvercommitBelowClaim | src/utils/concurrent_queue.h:2173-2185 | the assertion after the claim holds: the overcommit read before is at most the thread's own ticket |
| Dequeue.AloneTakesAll | src/utils/concurrent_queue.h:2173-2260 | after any run, a call nobody interferes with takes exactly as many elements as there are, up to its maximum |
| Dequeue.ClaimTakesAll | src/utils/concurrent_queue.h:2180-2190 | also among other calls, a claim gets less than it wanted only if what was claimed up to it, less the overcommit it read, uses up all elements, and never more than there are |
| Dequeue.Settled | src/utils/concurrent_queue.h:1978-1981 | with no call in progress, claims less overcommit are exactly what was fetched |
| BlockCache.BlkCache.Write | src/blk/blk_cache.h:45-68 | changes what is cached for its address and the evicted one alone; evicts if and only if it misses and the cache is full, and then the unit used longest ago; map and list agree, no buffer is lost or shared |
| BlockCache.BlkCache.Read | src/blk/blk_cache.h:70-86 | a hit returns the contents and makes the unit the most recent |
| BlockCache.BlkCache.EvictUnit | src/blk/blk_cache.h:162-168 | the units that stay are those of the addresses used last |
| BlockCache.BlkCache.FreeBlock | src/blk/blk_cache.h:118-132 | the buffer goes back to the pool and nothing cached changes |
| BlockCache.UsedAgain | src/blk/blk_cache.h:170-174 | moving a used unit to the front keeps the list in order of last use |
| BlockCache.UsedAnew | src/blk/blk_cache.h:156-160 | so does putting a new unit in front |
| BlockCache.KeptUse | src/blk/blk_cache.h:45-86 | what a cache of n units keeps is told by the history of uses: after one more use, the address used and those kept before, but for the one that leaves |
| StoreRuns.RunKnown | src/blk/file_blk_accessor.h:77-136 | after any sequence of calls, the calls alone tell which blocks are cached, which of them are marked dirty, how far the file reaches, and what it holds for a block that came in by a read |
| StoreRuns.ExactlyLossy | src/blk/file_blk_accessor.h:77-136 | for the cache as written, any capacity and any sequence of calls: every read that could be made at any point is right if and only if no write of the sequence misses and pushes out a block that came in by a read and was since written with other contents; where that read was past the end of the file, other than the zeros of a gap that the file has come to cover |
| StoreRuns.ReadsAreRight | src/blk/file_blk_accessor.h:77-113 | so without such a write every read made returns what was written last to its block |
| StoreRuns.StoredIsIntact | src/blk/blk_cache.h:45-68 | with the dirty bit stored in the unit itself, after any sequence of calls every block ever written reads back as it was written last |
| StoreRuns.LostWrite | src/blk/blk_cache.h:58-67 | for any capacity n: one block read and written, then n others written; the last of them is lossy, and the written block reads back as whatever the caller's buffer held |
| FileStore.FileBlkAccessor.Allocate | src/blk/file_blk_accessor.h:58-67 | gives an address that was not live, a freed one if there is any, and makes it alone live, unless it was freed without ever being allocated |
| FileStore.FileBlkAccessor.Deallocate | src/blk/file_blk_accessor.h:69-75 | for any address: if it is not the one after the cursor, it is no longer live and no other changes; if it is, which no allocated address can be, the cursor goes down and the address allocated last is no longer live instead |
| FileStore.FileBlkAccessor.Read | src/blk/file_blk_accessor.h:77-113 | refused unless the address is live; otherwise returns the cached block, the block on file with zeros in gaps, or past the end of the file the buffer as it was, and the store is the one after that read |
| FileStore.FileBlkAccessor.Write | src/blk/file_blk_accessor.h:115-136 | refused unless the address is live; otherwise the store is the one after that write, with what is pushed out written back only if it is marked dirty |
| FileStore.Serve | src/blk/file_blk_accessor.h:77-136 | any sequence of calls on live addresses answers every read, and leaves the store, as the run of the calls says |
| FileStore.ServeNew | src/blk/file_blk_accessor.h:77-136 | from a new store, every read of a block ever written returns what was written last, if the dirty bit is stored, or else if no call is lossy |
| NodeCodec.RoundTrip | src/tree/leaf_node.h:315-369 | a leaf or inner node read from a block after it was written there is the node, whatever the block held before |
| NodeCodec.InnerBack | src/tree/inner_node.h:431-487 | the same for an inner node followed by any bytes |
| NodeCodec.LeafLayout | src/tree/leaf_node.h:315-342 | where each field of a serialized leaf stands: kind, size, own address, sibling, then the entries, key before value |
| NodeCodec.InnerLayout | src/tree/inner_node.h:431-457 | the same for an inner node: kind, size, own address, all keys, then all child addresses |
| NodeCodec.Fitting | src/tree/leaf_node.h:339-341 | the bytes fit whenever 24 + CAPACITY * sizeof(Entry), or 16 + CAPACITY * (sizeof(K) + 8), do |
| LockCoupling.LockManager.Search | src/tree/concurrent_b_plus_tree.h:57-114 | whatever it meets, every lock it takes is released once by its holder, none is left, and it has at most two at a time; the locks taken and given back, with their modes, and the reads, are in order those of `SearchActs` |
| LockCoupling.LockManager.InsertOptimistic | src/tree/concurrent_b_plus_tree.h:132-204 | the same for the optimistic insert, with its writes, as in `OptimisticActs`; it succeeds exactly if it reaches a leaf with room |
| LockCoupling.LockManager.InsertPessimistic | src/tree/concurrent_b_plus_tree.h:206-380 | each node releases its own lock once and leaves its parent's, so the lock list is as before; at most one lock for each node of the path; what it does is, in order, `PessimisticActs` |
| LockCoupling.ConcurrentSearch | src/tree/concurrent_b_plus_tree.h:50-55 | the lock list is empty after a search, which never has more than two locks |
| LockCoupling.ConcurrentInsert | src/tree/concurrent_b_plus_tree.h:117-130 | the lock list is empty after either attempt |
| LockCoupling.SearchIsProper | src/tree/concurrent_b_plus_tree.h:57-114 | a search reads a node only under a lock on it, takes a child's lock only while it has the one of the node before it, gives back only what it has, and ends with none of its locks |
| LockCoupling.OptimisticIsProper | src/tree/concurrent_b_plus_tree.h:132-204 | the same for the optimistic insert; it writes nothing it does not hold for writing if and only if it finds no room or the height it was told last is that of its path |
| LockCoupling.StaleHeight | src/tree/concurrent_b_plus_tree.h:117-142 | a height read before the root was split: an optimistic insert that writes its leaf under a read lock |
| LockCoupling.PessimisticIsProper | src/tree/concurrent_b_plus_tree.h:206-380 | the pessimistic insert takes locks hand over hand, and all it writes it holds for writing |
| Histogram.Tiles | spdk/include/spdk/histogram_data.h:137-151 | no bucket is empty, the first starts at 0 and the last ends at 2^64 |
| Histogram.OneBucket | spdk/include/spdk/histogram_data.h:137-151 | no number lies in two buckets |
| Histogram.InItsBucket | spdk/include/spdk/histogram_data.h:96-126 | every non-zero datapoint lies between the start and the end of the bucket it is tallied in |
| Histogram.StartFits | spdk/include/spdk/histogram_data.h:137-151 | every start fits in 64 bits, and every end but the last |
| Histogram.HistogramData.Tally | spdk/include/spdk/histogram_data.h:128-135 | after any tallies, every bucket holds the number of datapoints between its start and its end |
| Histogram.HistogramData.Iterate | spdk/include/spdk/histogram_data.h:156-183 | reports every bucket in order with the number of datapoints in it, below its end, and in all |

## Left out

- NVMe accessors, queue pairs and device calls: foreign I/O.
- The ready-state estimator, which guesses from submission times and assumed latencies how many I/Os have completed, and its
  linear regression variant: they only tell the outer scheduler loops when to look for completions, and every order of
  completions is a run.
- `context_based_process` and the deque overload of `process_ready_contexts`, which `schedule` replaces; the outer scheduler
  loops and their policies.
- Starvation of writers: new readers are granted past queued writers, so no bound holds.
- C++ object lifetime, request ownership, callbacks and semaphores: nodes are named by address.
- The rest of the bundled queue (block index, producer lists), weak memory orders, and index wrap-around: steps are
  sequentially consistent on unbounded integers.
- `src/blk/lru.h`, benchmarks, metrics, CPU affinity, the Zipf generator, spin locks.
- The debug flag `last_state_1` of the pull-based tree: state 1 sets state 2 as the next one, so it is never run twice in a row.
- FileStore.FileBlkAccessor.Allocate: the cursor does not wrap after 2^32 allocations.
- A file block accessor without a cache, and I/O errors.
- NodeArrays.InnerNode.Balance: what a read past the arrays gives; the model stops there and says so.
- RunLoop.Engine.ProcessReady: does not model the `max` limit, which the collecting loop never advances towards.
- BPlusTree.VanillaTree.Insert: the recursion is on tree values, not on blocks updated in place; the allocator gives an address
  no leaf has.
- NodeArrays.InnerNode.TakeBack: children are trees held by value, not references.
- BPlusTree.VanillaTree.Delete: does not model that the block of a node merged away, or of a collapsed root, is freed.
- NodeCodec.RoundTrip: keys and values are integers of a fixed number of bytes, without padding between them.
- LockCoupling.LockManager.InsertPessimistic: proves the locks of one thread, their modes and order, not the mutual exclusion
  they give; takes for granted that no node is its own child.
- Histogram.HistogramData.Tally: counters do not wrap at 64 bits.
