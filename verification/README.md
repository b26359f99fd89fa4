# Verified model of libcop

libcop gives user programs access to the coprocessors of a PowerEN chip: it manages the memory the
coprocessors may see, fills in request blocks, dispatches them and watches them complete.  This
project models, in Dafny, the parts of it that carry state, and proves what callers rely on.

`dafny verify dfyconfig.toml` checks everything.

**The mapped-memory allocator.**  Free nodes sit in four alignment classes of six size buckets, each
bucket a stack with recycled cells; handed-out nodes sit in an unbalanced search tree with parent
pointers; a cursor walks what is left of the newest mapped block; when nothing can serve a request the
rest of the block is filed and a new block is mapped.  The model has two levels.  `SizeClasses`,
`Buckets`, `AllocTree` and `Pool` are the allocator as values and functions, and all laws are proved
there: `PoolSafety` (memory is disjoint and mapped), `PoolGround` (what even a rounded refill leaves of
that), `PoolAlignment`, `PoolAccounts` (no byte is unaccounted for), `PoolReuse`, `PoolService`, `Seeding`, and
`PoolFailures` with the runs from the library's own first pool in which the code falls short.  `Deq`, `HeapBuckets`, `TreeLinks`,
`HeapTree` and `MMTree` are the linked structures and the code that rewrites them in place, each method
proved to do exactly what the functions say.  `BlockList` is the drain and rebuild of the block list
around a fork.

**The allocator under threads.**  `Interleaving` is a state machine for any number of threads inside
malloc and free.  A step is an unlocked look at a bucket's size, the taking or releasing of one lock, a
load of what the lock protects, or a store made from what was loaded, so that the locks matter.
`Exclusion` proves that no thread ever stores from a stale view, `Custody` and `Concurrency` that every
node is always in one place, `Progress` that no run gets stuck and every call ends, `SharedTerritory`,
`SharedAlignment` and `SharedAccounts` that memory stays disjoint, aligned and accounted for under every
interleaving, `SharedAnswers` what malloc then returns, `SoloThread` that an uninterrupted thread does and returns what the sequential functions say,
`LostNodes` how the one branch that loses nodes is reached, `LostRaces` what losing a race for a bucket
costs, and `Scans` that a search passes over no bucket that was never empty during its call.

**Around it.**  `AsymTables`, `AsymLayout` and `Asym` are the choice of operand sizes and the layout of
big-endian operands for the asymmetric coprocessor.  `Chain` and `Session` are chained decompression and
the arming, committing and polling of a session.  `DdeList` is the list of target buffers read back as
one.  `CrbCache` is the per-thread cache of request blocks.

## What the proofs found

The code is modelled as it is; where it does less than one would expect there is a lemma with the exact
condition, and mostly one with an input that shows it.

- A refill records a node of the rounded size but moves the cursor by the request
  (`libcop/lib/cop_map_tree.c:370-377`), and the sum in the size test of the carve wraps at 2^64
  (`libcop/lib/cop_map_tree.c:229`).  Memory stays disjoint exactly when the refilling request needs no rounding and
  the carve does not wrap (`PoolSafety.MallocSafeIff`), and bytes are counted exactly under the same condition
  (`PoolAccounts.NoSurplusIff`).  Otherwise two live allocations can overlap (`PoolFailures.RoundedRefillOverlaps`),
  and a small chunk serves almost the whole address space (`PoolFailures.CarveWraps`).
- A refill for 0 bytes leaves the cursor on the node it has just handed out, and no other refill does, rounded or not
  (`PoolGround.AdoptGroundedIff`); the next request can then get the same address
  (`PoolFailures.EmptyRefillRepeats`).
- An alignment of 0 divides by zero exactly when no bucket of the first class serves the request
  (`PoolSafety.ZeroAlignmentDivides`), as with any first request over 64 KiB (`PoolFailures.FirstDivides`).
- Alignments over 128 share one class, whose nodes are meant for pages.  An aligned pool is left misaligned exactly by
  a refill whose size is no multiple of 128, by a carve whose size is none and over 1 MiB, and by a carve at 256 to
  2048 that is not on a page (`PoolAlignment.MallocAlignedIff`, `PoolAlignment.PowerCutsAligned`; other alignments by
  their padding, too).  After such a carve, a free and a page-aligned request can be answered off the page
  (`PoolFailures.PageIsMissed`).  Alignments over a page are not honoured by the buckets at all
  (`PoolAlignment.AlignedIff`, `PoolFailures.LargeAlignmentIsMissed`).
- The last bucket of a class is popped without a size check, so a request over 1 MiB can get a smaller node
  (`PoolService.HandedFitsIff`): 2 MiB, a free, and 3 MiB are answered with the same 2 MiB
  (`PoolFailures.TooSmallIsServed`).
- The scan drops a node it finds too small.  Alone, a thread never gets there (`Buckets.SearchSpec`); two
  threads can, with a request over 1 MiB, and the node is then lost (`LostNodes.LargeRequestsCanLose`).
- A thread that finds its first bucket emptied by another goes to the chunk, and perhaps to the system for a new
  block, although a larger bucket of its class could serve it (`LostRaces.SecondGoesToChunk`).
- Insertion into a bucket is not a sorted insertion; the order that is kept excludes the last element
  (`Buckets.SortedIffNotSmallest`).
- A refilled node is filed by its address, not by the class asked for, so malloc, free, malloc does not
  always return the same address after a refill (`PoolReuse.RefillReuseIff`, `PoolFailures.RefillMovesOn`).
- The comment at `libcop/lib/cop_map_tree.c:110` gives 4,998,400 bytes for the seeded nodes; the calls below it
  use 2,912,000, and no shorter first block is safe (`Seeding.SeedPoolIff`).
- Five or six operands of MEXC that do not all fit the 2048-bit row do not fit the 1536-byte operand area
  (`Asym.OperandsFitIff`), and the setup writes up to 304 bytes past it (`Asym.MexcOverruns`).  The result size of the binary point operations is 0 in every row but the first
  (`Asym.PointResultCoversIff`).  A size of 2^61 bytes or more loses its high bits when it is turned into bits
  (`Asym.HugeOperandSelectsFirst`).
- A session committed while an earlier request is outstanding, and only such a session, can be reported complete
  too early (`Session.StaleIff`, with a run in `Session.StaleRun`); a refused dispatch leaves it in flight until it is armed again
  (`Session.RefusedStaysInflight`).

## Conventions

Addresses are natural numbers below 2^64 and 0 is the null pointer.  A node carries an `id` for the
identity of its structure.  The twenty-four buckets are one sequence, bucket `b` of class `c` at
`Slot(c, b)`.  `supply` stands for the system's answer when a block is needed: the base of a new mapped
block, or nothing; laws that need it say that the block is disjoint from the others and within the address
space.  Word-size wrap-around is written out where the code's arithmetic can reach it.

## Model

| member | source | states |
|---|---|---|
| SizeClasses.BucketsFit | libcop/lib/cop_map_tree.c:497-569 | Rounding never shrinks a request and lands on the bucket its search starts from; any node filed at or above that bucket is large enough for a request of at most 1 MiB. |
| SizeClasses.BucketsAre | libcop/lib/cop_map_tree.c:497-569 | A request starts at the first of 128, 512, 4096, 65536 and 1048576 bytes that holds it and is rounded to just that, over 1 MiB not at all; a node is filed under the last of them that it reaches, over 1 MiB in the sixth bucket. |
| SizeClasses.RoundingIsExact | libcop/lib/cop_map_tree.c:497-569 | For a request of at most 1 MiB the nodes filed where its search may look are exactly those that hold its rounded size. |
| SizeClasses.ClassesAre | libcop/lib/cop_map_tree.c:462-582 | An alignment is of the first class of 1, 16 and 128 that is no less, and else of the last; an address is of the last class of 1, 16, 128 and 4096 that divides it. |
| SizeClasses.MasksAre | libcop/lib/cop_map_tree.c:479-495 | The mask of an alignment is one less than 16, 128 or 4096, whichever covers it, or than the alignment itself; up to 1 it is all ones. |
| SizeClasses.MaskIsRemainder | libcop/lib/cop_map_tree.c:161-167 | The mask test of a power of two is the remainder test. |
| Buckets.InsertPosition | libcop/lib/cop_map_node.c:110-118 | Where the insertion walk stops: everything before is larger, and it is the last cell or a cell not larger. |
| Buckets.BucketInsertBag | libcop/lib/cop_map_node.c:86-142 | Inserting into a bucket adds exactly that node and its bytes. |
| Buckets.InsertKeepsOrder | libcop/lib/cop_map_node.c:109-137 | A bucket that is non-increasing but for its last element stays so. |
| Buckets.SortedIffNotSmallest | libcop/lib/cop_map_node.c:113-118 | A sorted bucket stays sorted if and only if the new node is not smaller than its last. |
| Buckets.PopThenInsert | libcop/lib/cop_map_node.c:109-137 | A popped head put back gives the very same bucket. |
| Buckets.FirstNonEmpty | libcop/lib/cop_map_node.c:179-199 | The scan finds the first non-empty bucket at or above its start, or none when all are empty. |
| Buckets.SearchSpec | libcop/lib/cop_map_node.c:158-206 | Alone, the search fails exactly when every bucket from the request's own up is empty, never drops a node, and fits but for an over-1-MiB request that meets a smaller head in the last bucket. |
| AllocTree.InsertBag | libcop/lib/cop_map_node.c:379-425 | Inserting into the tree adds exactly that node. |
| AllocTree.InsertOrdered | libcop/lib/cop_map_node.c:392-416 | Insertion keeps the address order. |
| AllocTree.RemoveBag | libcop/lib/cop_map_node.c:253-299 | Deletion removes exactly that node. |
| AllocTree.RemoveOrdered | libcop/lib/cop_map_node.c:253-299 | Deletion keeps the address order, also when the left subtree is hung under the leftmost node of the right one. |
| AllocTree.RemoveInorder | libcop/lib/cop_map_node.c:264-274 | The in-order sequence after deleting any node is the old one without that node. |
| AllocTree.RemovedRoot | libcop/lib/cop_map_node.c:253-299 | The left spine after deleting a root is the right subtree's with the left subtree's hung below it, each node with its right subtree unmoved. |
| AllocTree.OrderedIsSorted | libcop/lib/cop_map_node.c:253-299 | An ordered tree read from left to right gives its addresses in order. |
| AllocTree.FindIffPresent | libcop/lib/cop_map_node.c:209-248 | The search by address succeeds exactly when some node has the address. |
| AllocTree.InsertThenRemove | libcop/lib/cop_map_node.c:209-299 | Inserting under a new address, then searching and deleting, gives the node and the old tree back, shape and all. |
| AllocTree.InsertIsUpdate | libcop/lib/cop_map_node.c:379-425 | Insertion under a new address is the update of a finite map from address to node. |
| AllocTree.SearchAndRemoveIsDeletion | libcop/lib/cop_map_node.c:209-248 | Search-and-remove is lookup and deletion in that map. |
| Pool.MallocKeeps | libcop/lib/cop_map_tree.c:183-254 | Malloc keeps the pool well formed for every request and every answer of the system. |
| Pool.FreeKeeps | libcop/lib/cop_map_tree.c:386-400 | Free keeps it well formed, loses and makes no node, and conserves bytes, whatever the address. |
| Pool.ServeKeeps | libcop/lib/cop_map_tree.c:201-211 | A request served from a bucket moves one node and makes none. |
| Pool.FlushAll | libcop/lib/cop_map_tree.c:430-450 | Flushing files what is left of the chunk as one node, or nothing when it is under 128 bytes. |
| PoolSafety.CarveTestIsExact | libcop/lib/cop_map_tree.c:221-229 | As long as size and alignment do not overflow a word together, the sum does not wrap and the carve test is the true comparison. |
| PoolSafety.CarveSafeIff | libcop/lib/cop_map_tree.c:229-241 | A carve out of a safe pool leaves it safe if and only if its sum does not wrap (no mapped block taking all the address space but for fewer bytes than the alignment). |
| PoolSafety.AdoptSafeIffUnrounded | libcop/lib/cop_map_tree.c:368-378 | Taking over a new block keeps memory disjoint if and only if the request needs no rounding. |
| PoolSafety.MallocSafeIff | libcop/lib/cop_map_tree.c:183-254 | Under the same proviso on the blocks, one malloc, of any size and at any alignment, keeps all nodes and the chunk disjoint and inside mapped blocks if and only if a carve does not wrap and a refill needs no rounding. |
| PoolSafety.RunSafe | libcop/lib/cop_map_tree.c:183-400 | So does every run of mallocs and frees that meets the condition at each carve and refill and is supplied with new blocks. |
| PoolSafety.ZeroAlignmentDivides | libcop/lib/cop_map_tree.c:201-225 | Malloc divides by zero if and only if the alignment is 0 and no bucket of the first class can serve. |
| PoolGround.SafeIsGrounded | libcop/lib/cop_map_tree.c:183-254 | A pool whose memory is disjoint and mapped is grounded: each node has an address of its own in a mapped block, outside the chunk. |
| PoolGround.AdoptGroundedIff | libcop/lib/cop_map_tree.c:368-378 | Taking over a new block, rounded or not, keeps a pool grounded if and only if the request is not for 0 bytes. |
| PoolGround.RunGrounded | libcop/lib/cop_map_tree.c:183-400 | So does every run in which no carve wraps, no refill is for 0 bytes and supplied blocks are new. |
| PoolAlignment.CarvedIsAligned | libcop/lib/cop_map_tree.c:212-233 | A carved node honours any power of two asked for, whatever pool it is carved from. |
| PoolAlignment.PaddingIs | libcop/lib/cop_map_tree.c:221-229 | A node that fits at a multiple of its class alignment gets no padding, whatever alignment was asked; otherwise it gets the least that makes its address a multiple of it. |
| PoolAlignment.AlignedIff | libcop/lib/cop_map_tree.c:183-254 | A returned address is a multiple of the alignment exactly when it is carved or refilled, or the popped head happens to be. |
| PoolAlignment.CarveCursorIff | libcop/lib/cop_map_tree.c:229-234 | Whatever power of two is asked for, carving keeps the cursor a multiple of 128 if and only if the size is at most 1 MiB or a multiple of 128. |
| PoolAlignment.CarveAlignedIff | libcop/lib/cop_map_tree.c:212-234 | At every alignment, carving keeps cursor and nodes aligned if and only if the padding is a multiple of 128, the size is at most 1 MiB or a multiple of 128, and for an alignment over 128 the node is page aligned. |
| PoolAlignment.PowerCutsAligned | libcop/lib/cop_map_tree.c:212-234 | For powers of two that comes to the size, and for 256 to 2048 the page-aligned node. |
| PoolAlignment.MallocAlignedIff | libcop/lib/cop_map_tree.c:183-254 | At every alignment, malloc keeps cursor and nodes aligned if and only if what is carved meets the condition above and what refills is a multiple of 128. |
| PoolAlignment.MallocAligned | libcop/lib/cop_map_tree.c:183-254 | For every power of two up to a page, the address returned from an aligned pool is a multiple of it, whatever the size. |
| PoolAlignment.RunAligned | libcop/lib/cop_map_tree.c:183-400 | The pool is aligned after every run of frees and of mallocs, at any alignments, that meet the condition and get blocks aligned as asked. |
| PoolAccounts.StepBytes | libcop/lib/cop_map_tree.c:229-241 | For every malloc and free: bytes before, mapped and surplus equal bytes after, skipped as padding and dropped, and under 128 bytes are dropped at a time. |
| PoolAccounts.NoSurplusIff | libcop/lib/cop_map_tree.c:229-241 | The surplus, bytes recorded but not there, is 0 if and only if a carve does not wrap and a refill needs no rounding. |
| PoolAccounts.RunBytes | libcop/lib/cop_map_tree.c:183-450 | Conservation of bytes over every run of mallocs and frees whose new blocks are within the address space. |
| PoolReuse.ServeThenFree | libcop/lib/cop_map_node.c:109-137 | A request served from a bucket by an address that nothing handed out has, and freed, leaves every bucket sequence and the tree exactly as they were. |
| PoolReuse.CarveThenFree | libcop/lib/cop_map_tree.c:229-241 | A node carved at an address that nothing handed out has, and freed, is alone in the bucket its size starts from. |
| PoolReuse.RoundsReuse | libcop/test/mmutest007.c:43-54 | Any number of rounds of malloc and free with one size and alignment returns one address, if the first call needs no new block and its answer is no address already handed out. |
| PoolReuse.PlacedRepeats | libcop/lib/cop_map_tree.c:201-241 | In a pool whose nodes are placed, so it is for every request that does not refill, unless its carve wraps to an address that is handed out. |
| PoolReuse.ReuseAfterRun | libcop/test/mmutest007.c:43-54 | So it is after every run of mallocs and frees that keeps the pool grounded, refills that round included. |
| PoolReuse.RefillReuseIff | libcop/lib/cop_map_tree.c:368-378 | After a refill it does if and only if the block's base is of the class asked for, or the request is for 0 bytes, the old chunk is not filed in its class and no padding comes first. |
| PoolService.HandedFitsIff | libcop/lib/cop_map_node.c:170-174 | The node handed out is large enough if and only if the request is at most 1 MiB or the last bucket of the class is not headed by a smaller one. |
| PoolService.MallocHandsOut | libcop/lib/cop_map_tree.c:183-254 | Malloc fails exactly when no bucket, chunk or new block can serve; otherwise the tree gains one node, found under the returned address, that overlaps nothing already handed out. |
| PoolService.MallocMaps | libcop/lib/cop_map_tree.c:242-254 | A block is mapped only for a request that refills, of 16 MiB or the rounded size if that is more, and heads the list. |
| PoolService.OverAligned | libcop/lib/cop_malloc.c:38-49 | An alignment over 1 GiB is refused with the pool untouched; up to that a request fails only when it must refill and the system gives nothing. |
| PoolService.ReachableBalances | libcop/lib/cop_map_tree.c:93-400 | From the seeded first block, whatever is asked: the pool is well formed and its bytes are accounted for, as long as new blocks are within the address space. |
| PoolService.ReachableIsGrounded | libcop/lib/cop_map_tree.c:93-400 | From the seeded first block, each node has an address of its own as long as no carve wraps, no refill is for 0 bytes and supplied blocks are new. |
| PoolService.ReachableIsSafe | libcop/lib/cop_map_tree.c:93-400 | From the seeded first block, memory is disjoint and mapped as long as no carve wraps, no refill rounds and supplied blocks are new. |
| PoolService.ReachableIsAligned | libcop/lib/cop_map_tree.c:93-400 | From the seeded first block, cursor and nodes are aligned as long as the run meets the condition of the alignment law, at any alignments, and then the next malloc of any size returns a multiple of any power of two up to a page that it asks for. |
| PoolFailures.CarveWraps | libcop/lib/cop_map_tree.c:221-233 | From the library's first pool: a page-aligned request for 256 bytes less than the address space is served from the chunk, and memory is no longer safe. |
| PoolFailures.RoundedRefillOverlaps | libcop/lib/cop_map_tree.c:370-377 | From the library's first pool, with under 1 MiB left of its block: 65537 bytes, 65537 bytes, a free of the first, 1 MiB on a page, and two live allocations overlap, whenever the new block is page aligned. |
| PoolFailures.EmptyRefillRepeats | libcop/lib/cop_map_tree.c:370-377 | From the library's first pool, with under 128 bytes left of its block: some run of requests for 0 bytes ends with two in a row that return one address, both live. |
| PoolFailures.TooSmallIsServed | libcop/lib/cop_map_node.c:170-174 | From the library's first pool: 2 MiB, a free, and 3 MiB are answered with the same 2 MiB node. |
| PoolFailures.FirstDivides | libcop/lib/cop_map_tree.c:221-225 | On the library's first pool: any request over 64 KiB with an alignment of 0 divides by zero. |
| PoolFailures.RefillMovesOn | libcop/lib/cop_map_tree.c:368-378 | From the library's first pool, with under 1 MiB left of its block: 65537 bytes, a free, and the same request gets another address. |
| PoolFailures.PageIsMissed | libcop/lib/cop_map_tree.c:201-233 | From the library's first pool, with 1 MiB left of its block: any size from 64 KiB to 1 MiB at an alignment of 256, a free, and the same size at 4096 are both answered 3840 bytes past a page; the pool is no longer aligned. |
| PoolFailures.LargeAlignmentIsMissed | libcop/lib/cop_map_tree.c:201-211 | On the library's first pool: 4096 bytes at an alignment of 65536 are answered half-way between two multiples of it. |
| Seeding.SeedBatchKeeps | libcop/lib/cop_map_node.c:56-82 | A batch of seeded nodes keeps the pool safe, aligned and in order, and moves the cursor by stride times number. |
| Seeding.SeedPoolIff | libcop/lib/cop_map_tree.c:94-159 | A page-aligned first block seeds a safe pool if and only if it is at least 2,912,000 bytes; then the rest is the chunk. |
| Seeding.SeededLists | libcop/lib/cop_map_tree.c:110-154 | Each of the twenty-four free lists of the seeded block to the node: 25, 50, 250 or no nodes, the k-th from the bottom at its start plus k strides, of exactly its bucket's size. |
| Seeding.SeededRest | libcop/lib/cop_map_tree.c:99-154 | What is left as the chunk, modulo 2^64: a block shorter than the seeded nodes leaves almost a whole address space. |
| Deq.DecRoot.constructor | libcop/lib/deq.c:44-59 | An empty stack with six recycled cells. |
| Deq.DecRoot.Push | libcop/lib/deq.c:75-94 | Push puts the item on top; live and recycled cells stay apart and the size is the height. |
| Deq.DecRoot.Pop | libcop/lib/deq.c:96-117 | Pop takes the top, or gives nothing when empty; the freed cell is emptied and is the next to be reused. |
| HeapBuckets.InsertNode | libcop/lib/cop_map_node.c:86-142 | The walk and the splice on the linked cells give exactly the bucket the insertion function says. |
| TreeLinks.HungShape | libcop/lib/cop_map_node.c:389-420 | Setting one child and one parent pointer turns the links of the tree into those of the tree with the node inserted. |
| TreeLinks.RemoveShape | libcop/lib/cop_map_node.c:253-299 | The links of the tree without a node, from those of the tree with it: what the pointer updates of the deletion must come to. |
| HeapTree.AllocedTree.Insert | libcop/lib/cop_map_node.c:379-425 | The loop over node structures inserts as the tree function says, parent and child pointers consistent. |
| HeapTree.AllocedTree.RemoveNode | libcop/lib/cop_map_node.c:253-299 | Deletion in place gives the tree without the node, consistent pointers, and a fully detached node. |
| HeapTree.AllocedTree.SearchAndRemove | libcop/lib/cop_map_node.c:209-248 | An address in the tree is found and deleted; an unknown one changes nothing. |
| MMTree.MappedMemoryTree.SearchAligned | libcop/lib/cop_map_node.c:158-206 | The class search in place pops what the search function says. |
| MMTree.MappedMemoryTree.FlushRemaining | libcop/lib/cop_map_tree.c:430-450 | The flush in place is the flush of the pool value. |
| MMTree.MappedMemoryTree.RefillAndFlush | libcop/lib/cop_map_tree.c:355-381 | The refill in place is the refill of the pool value. |
| MMTree.MappedMemoryTree.CarveOrRefill | libcop/lib/cop_map_tree.c:212-254 | Carving or refilling in place is that of the pool value. |
| MMTree.MappedMemoryTree.Malloc | libcop/lib/cop_malloc.c:38-49 | Malloc in place gives the pool and the address the functions say, for every request. |
| MMTree.MappedMemoryTree.Free | libcop/lib/cop_map_tree.c:386-400 | Free in place gives the pool the functions say, for every address. |
| MMTree.MappedMemoryTree.InsertMappedBlock | libcop/lib/cop_map_tree.c:93-159 | Seeding in place is the seeding of the pool value, whose free lists `Seeding.SeededLists` gives. |
| MMTree.NewSeededTree | libcop/lib/cop_map_tree.c:46-159 | A new pool over its first block is the seeded pool. |
| BlockList.EveryByteIsFaultedIn | libcop/lib/cop_pool.c:376-383 | The addresses touched lie in every page of every block. |
| BlockList.PagesAre | libcop/lib/cop_pool.c:376-383 | One address for every 4096 bytes of a block, from its base on, and no more. |
| BlockList.PourBack | libcop/lib/cop_pool.c:388-392 | Popping one stack onto another reverses it. |
| BlockList.ReversedTwice | libcop/lib/cop_pool.c:374-392 | Twice over, the sequence is the old one. |
| BlockList.TouchPool | libcop/lib/cop_pool.c:362-393 | Every block is touched once, in list order, and the list is rebuilt as it was. |
| BlockList.RemapPool | libcop/lib/cop_pool.c:313-360 | In list order, up to and with the first one refused, every page of a block is touched and then the block mapped; the process exits exactly when one is; otherwise the list is rebuilt as it was. |
| Exclusion.StepLocked | libcop/lib/cop_map_node.c:94-141 | A lock is owned exactly by the thread inside its section, after every step. |
| Exclusion.StepSpares | libcop/lib/cop_map_tree.c:217-251 | A step writes only what the locks its thread holds protect. |
| Exclusion.StepViewsTrue | libcop/lib/cop_map_node.c:168-206 | What a thread has loaded under a lock is still there when it stores. |
| Custody.StepBalanced | libcop/lib/cop_map_tree.c:183-254 | No step duplicates or drops a node between memory, hands, loss and making. |
| Custody.StepAccounted | libcop/lib/cop_map_tree.c:183-400 | The books stay balanced under every interleaving. |
| Concurrency.StepKeeps | libcop/lib/cop_map_node.c:86-206 | Every step of every thread keeps exclusion, custody, bucket order and tree order. |
| Concurrency.RunKeeps | libcop/lib/cop_map_tree.c:183-400 | So does every run. |
| Concurrency.ReachableAccounts | libcop/lib/cop_map_tree.c:183-400 | In every state any number of threads can reach, each node is in exactly one bucket, the tree, one thread's hands, or lost. |
| Concurrency.PoppedFits | libcop/lib/cop_map_node.c:168-206 | A popped node is of the right class, in nobody else's reach, and large enough for a request of at most 1 MiB. |
| Concurrency.LossIff | libcop/lib/cop_map_node.c:189-192 | A node is lost exactly when a scan leaves with too small a node, and only by a request over 1 MiB. |
| Concurrency.NothingLost | libcop/lib/cop_map_node.c:158-206 | Without requests over 1 MiB no interleaving loses a node. |
| LostNodes.LargeRequestsCanLose | libcop/lib/cop_map_node.c:178-192 | For every large node of a class with an empty last bucket and every larger request there is a run of two threads that loses the node. |
| Progress.SomeoneCanStep | libcop/lib/cop_map_tree.c:217-251 | As long as a thread is inside a call, some thread inside a call can step: the remaining lock is outermost, all others are leaves. |
| Progress.StepDrains | libcop/lib/cop_map_tree.c:183-400 | Every step brings the calls in progress nearer to their end, so no run goes on without new calls. |
| Progress.CallsFinish | libcop/lib/cop_map_tree.c:183-400 | From every reachable state all calls can be brought to their end, in at most 55 steps for each thread. |
| SharedTerritory.StepApart | libcop/lib/cop_map_tree.c:217-251 | Every step, if its carve does not wrap, its refill does not round and its block is new, keeps all nodes, wherever they are, and the chunk disjoint and mapped, also half-way through a refill; and the same of the first bytes of the nodes, where a refill may round but not be for 0 bytes. |
| SharedTerritory.RunApart | libcop/lib/cop_map_tree.c:183-400 | So does every run of any number of threads in which no carve wraps, no refill rounds (or, for the first bytes, none is for 0 bytes) and supplied blocks are new. |
| SharedTerritory.ThreadsAreSound | libcop/lib/cop_map_tree.c:93-400 | In every state that any number of threads can reach from the seeded first block under these conditions, every node is in one place and no memory is held twice. |
| SharedTerritory.ThreadsAreGrounded | libcop/lib/cop_map_tree.c:93-400 | When refills may round but none is for 0 bytes, in every such state each node ever made has an address of its own in a mapped block, outside the chunk. |
| SharedTerritory.HeldApart | libcop/lib/cop_map_tree.c:183-254 | In such a state, what two threads have in their hands is never the same node, never overlaps, and is in no bucket, not in the tree and outside the chunk. |
| SharedAlignment.RunAlignedWorld | libcop/lib/cop_map_tree.c:183-400 | Every run of any number of threads keeps cursor and all nodes aligned, at any alignments, as long as carves meet the condition of the alignment law and refills are of multiples of 128 with blocks aligned to 128. |
| SharedAlignment.ThreadsAreAligned | libcop/lib/cop_map_tree.c:93-400 | So from the seeded first block. |
| SharedAnswers.ThreadsAreServed | libcop/lib/cop_map_tree.c:183-254 | For any number of threads on any well-formed pool, whatever they ask for: a thread whose malloc is over has its answer, and an address it was given is that of a node large enough for its request of at most 1 MiB, popped, carved or refilled. |
| SharedAnswers.ThreadsAreServedAligned | libcop/lib/cop_map_tree.c:183-254 | And aligned as asked, for powers of two up to a page, if the pool was aligned, the run keeps it so and blocks are aligned as asked. |
| SharedAnswers.AnsweredAlone | libcop/lib/cop_map_tree.c:183-254 | At the moment a thread returns an address its node is in the tree and nowhere else, and overlaps no other node there has ever been, from the seeded first block under the conditions of disjointness. |
| SharedAccounts.StepConserves | libcop/lib/cop_map_tree.c:183-400 | Every step of every thread conserves bytes: in buckets, tree, chunk, hands and spoken-for stretches of new blocks, up to what it skips, drops, maps, counts twice or loses. |
| SharedAccounts.RunConserves | libcop/lib/cop_map_tree.c:183-400 | So does every run, from a state of the invariant in which no refill under way has a chunk. |
| SharedAccounts.ThreadsConserve | libcop/lib/cop_map_tree.c:183-400 | So does every run of any number of threads started on any well-formed pool, whatever they ask for. |
| LostRaces.SecondGoesToChunk | libcop/lib/cop_map_node.c:168-175 | Whenever the bucket of a request holds one node and a larger bucket of the class more, there is a run of two threads in which the second goes for the chunk with that larger bucket untouched. |
| LostRaces.SecondGoesOn | libcop/lib/cop_map_node.c:179-199 | When their own bucket is empty and the next non-empty one holds one node, there is a run of two threads in which one takes that node after the other has seen it, and the other is answered with the head of the next non-empty bucket. |
| Scans.ChunkIsLastResort | libcop/lib/cop_map_node.c:168-199 | Under every schedule a thread goes for the chunk only if each bucket of its class from its request's own up was empty at some moment of that call; or else it has found its own bucket emptied at its first pop, or dropped a node too small. |
| Scans.PopsFirstSeen | libcop/lib/cop_map_node.c:168-199 | Under every schedule all buckets from the request's own up to the one a node is popped from were empty at some moment of that call. |
| SoloThread.SoloMalloc | libcop/lib/cop_map_tree.c:183-254 | The machine, run by one uninterrupted thread, leaves the pool and returns the result of the sequential malloc, and loses nothing. |
| SoloThread.SoloFree | libcop/lib/cop_map_tree.c:386-400 | And what the sequential free does. |
| AsymTables.ArityIs | libcopl/lib/cop_asym.c:68-89 | An operation's operands are those with a column in its row of the table. |
| AsymTables.WidthsAre | libcopl/lib/cop_asym.c:43-60 | Every width of the encode table from the size of its row: whole, half, half and a bit, one bit more, or 56, by kind of row. |
| AsymTables.ColumnsAre | libcopl/lib/cop_asym.c:68-112 | Every operand column and result class from the kind of operation. |
| Asym.DetermineEncodeValue | libcopl/lib/cop_asym.c:122-155 | The nested loops return the least row in which every operand fits its column, or none when none does. |
| Asym.CheckedIff | libcopl/include/libcopl/asym.h:211-219 | A null pointer and an empty number are refused with -22 and -14, and nothing else is. |
| Asym.ToRcEncode | libcopl/lib/cop_asym.c:180-200 | It fails exactly when an operand is null or empty or no row fits; otherwise it returns the encode value of the least row. |
| Asym.EncodeIsRow | libcopl/lib/cop_asym.c:43-60 | The encode value and the row determine each other. |
| Asym.SelectedHoldsIff | libcopl/lib/cop_asym.c:129-150 | The selected row is wide enough if and only if no size has reached 2^61; then no used column is empty and no earlier row would do. |
| Asym.HugeOperandSelectsFirst | libcopl/lib/cop_asym.c:129-132 | An operand of 2^61 bytes selects the smallest row. |
| Asym.NoneSelectedIff | libcopl/lib/cop_asym.c:136-149 | For all other sizes selection fails exactly when no row is wide enough. |
| Asym.ResultCovers | libcopl/include/libcopl/asym.h:253-258 | From MMUL to M2ADD the result has room for every operand of its own column. |
| Asym.SizesAreLeast | libcopl/include/libcopl/asym.h:253-258 | Result and slots are of the least multiple of 16 bytes that has room for the width of their column. |
| Asym.PointResultCoversIff | libcopl/include/libcopl/asym.h:253-258 | For the binary point operations it has room for the first operand if and only if the first row was selected; otherwise its size is 0. |
| Asym.LayoutFitsIff | libcopl/include/libcopl/asym.h:329-351 | The slots of an operation's operands fit 1536 bytes in every row, except five or six operands of MEXC in the last. |
| Asym.OperandsFitIff | libcopl/include/libcopl/asym.h:329-351 | In the row selected for them the operands fit 1536 bytes, except five or six of MEXC that do not all fit the 2048-bit row. |
| Asym.MexcOverruns | libcopl/include/libcopl/asym.h:329-351 | Six operands of MEXC, the first of 512 bytes and the others of at most 256: the last row is selected and the sixth slot ends 304 bytes past the area. |
| Asym.CpbSetup | libcopl/include/libcopl/asym.h:329-351 | The copying loop fills each slot right-justified and touches nothing else. |
| AsymLayout.SlotReads | libcopl/include/libcopl/asym.h:339-350 | A slot that was zeroed, read as a big-endian number, is its operand's value. |
| Asym.SetUp | libcop/lib/cop/asym.c:59-98 | Row, result size (of `Asym.SizesAreLeast`), zeroing and layout together: the call fails exactly when it must and leaves memory alone, or each slot within the area reads as its operand; memory past the area changes only where the layout overruns it, which is exactly in the case above. |
| Chain.Crb.SetupFirst | libcopl/include/libcopl/comp.h:247-290 | The first request block: all fields it sets, or an error and no change. |
| Chain.Crb.SetupNext | libcopl/include/libcopl/comp.h:317-361 | A middle or last one. |
| Chain.Crb.SetupResume | libcopl/include/libcopl/comp.h:384-401 | A resume with a further target. |
| Chain.RefusedIff | libcopl/include/libcopl/comp.h:254-283 | First setup and resume are refused with -22 and change nothing exactly when data is missing; otherwise their descriptors are direct ones of the low 32 bits of the size. |
| Session.FlagsOfRun | libcopl/include/libcopl/comp.h:278-401 | After any run the flags are the format, RESUME exactly when the latest setup was a resume, DDE_PRESENT exactly when it gave a target. |
| Session.OrderOfRun | libcopl/include/libcopl/comp.h:338-358 | The sequence number counts the middle and last blocks modulo 256 and the chain field is the latest one's; resumes change neither. |
| Session.DescriptorsOfRun | libcopl/include/libcopl/comp.h:342-396 | Source and target are what the latest setup that gave them gave. |
| Session.ChainRuns | libcop/lib/cop/comp.c:123-143 | Sequence number, chain field, source, target and flags after any run of a decompression started by a first block that gave both; the format bits are constant when every resume uses the same format. |
| Session.RunCounted | libcop/lib/cop_session.c:188-226 | Over every run dispatches never outnumber armings. |
| Session.ArmedIff | libcop/lib/cop/comp.c:123-143 | Every setup arms a session, a refused one too, and exactly the first commit after it dispatches, accepted or not; other commits do nothing. |
| Session.CreatedCounts | libcop/lib/cop_session.c:175-226 | So from its creation: setups and dispatches are those counts, and what is outstanding and what is answered are distinct dispatches. |
| Session.FoundComplete | libcop/lib/cop_session.c:232-246 | A poll that reports completion records it, and only a setup takes it back. |
| Session.ReportsAreHonest | libcop/lib/cop_session.c:232-246 | Armed only while idle, a session reports completion only when the coprocessor has answered its latest dispatch. |
| Session.ReportsExactly | libcop/lib/cop_session.c:232-246 | Committed while nothing is outstanding and until it is armed again, a session is reported complete exactly when its request has been answered, at the first poll after that and at every later one. |
| Session.ValidIsAnswer | libcopl/include/libcopl/comp.h:278-401 | The valid bit is set only by an answer since the latest setup. |
| Session.StaleIff | libcop/lib/cop_dispatch.c:32-44 | After a commit, and before the session is armed again, some run of events reports it complete too early if and only if an earlier request is still outstanding. |
| Session.StaleRun | libcop/lib/cop_session.c:214-246 | Such a session: commit, the next block, commit, and the answer to the first request counts for the second. |
| Session.RefusedStaysInflight | libcop/lib/cop_session.c:214-226 | A refused dispatch is never reported complete until the session is armed again. |
| Session.CopSession.PrepNext | libcop/lib/cop/comp.c:123-143 | Preparing the next block in place is the step of the run. |
| Session.CopSession.AddTargetBuffer | libcop/lib/cop/comp.c:301-311 | So is adding a target. |
| Session.CopSession.CommitAsync | libcop/lib/cop_session.c:214-226 | A commit dispatches exactly when the session is armed. |
| Session.CopSession.CommitAndWait | libcop/lib/cop_session.c:175-212 | The synchronous commit is a commit and, if accepted, an answer. |
| Session.CopSession.IsComplete | libcop/lib/cop_session.c:232-246 | The poll reports and records completion as the run does, whose reports `Session.ReportsExactly` gives. |
| DdeList.GatherList.constructor | libcop/lib/cop/comp.c:187-197 | A list of one buffer that reads as that buffer. |
| DdeList.GatherList.Append | libcop/lib/cop/comp.c:279-298 | A zeroed buffer goes to the true end and the recorded size grows by its size. |
| DdeList.GatherList.Copy | libcop/lib/cop/comp.c:264-277 | The copy is exactly the prefix of the concatenated buffers, and the rest of the destination is untouched. |
| DdeList.GatherList.CopyWithOffset | libcop/lib/cop/comp.c:250-262 | The copy with an offset is exactly that slice. |
| DdeList.GatherList.FreeAll | libcop/lib/cop/comp.c:65-80 | Every buffer is given back once, in order. |
| DdeList.PrefixOf | libcop/lib/cop/comp.c:269-276 | The buffers walked so far hold a prefix of the whole. |
| CrbCache.RecycledIsPrimedIff | libcop/lib/cop_tls_cache.c:75-115 | A block given back cannot be told from a freshly primed one if and only if it has the size its type is primed with. |
| CrbCache.LayoutIs | libcop/lib/cop_tls_cache.c:81-105 | By type: the request, its status block right behind it, and the type's own part; what is primed and what is cleared are of that size. |
| CrbCache.PrimedIs | libcop/lib/cop_cache_setup.c:136-175 | A primed block is of that size, all zeros, with the address right behind the request, ten bits of marker, and the device's control word. |
| CrbCache.TlsCache.NextCrb | libcop/lib/cop_tls_cache.c:60-73 | What is handed out is as good as new and in nobody else's hands; an empty list is first primed with 50. |
| CrbCache.TlsCache.GiveBack | libcop/lib/cop_tls_cache.c:75-123 | A block given back, whatever is in it and whatever its size, waits cleared and filed under the type named; the cache is as good as new if and only if the block has the size its type is primed with; cached plus handed out is conserved. |
| CrbCache.TlsCache.SetMinimum | libcop/lib/cop_tls_cache.c:129-137 | Afterwards the list holds at least the number asked for, and no block more than needed was primed. |
| CrbCache.TlsCache.Prime | libcop/lib/cop_cache_setup.c:127-178 | Priming adds exactly that many fresh blocks. |

## Left out

- Deq.DecRoot.Push: `size` is a natural number; the 32-bit counter of the source wraps only beyond four thousand million cells.
- Deq.DecRoot.Pop: a stored null pointer and an empty stack, which the source cannot tell apart, are told apart; nothing in the source stores one.
- MMTree.MappedMemoryTree.RefillAndFlush: a block is either supplied and mapped or not; that the source frees a structure and then reads it when the mapping is refused (libcop/lib/cop_map_tree.c:334-344) is not modelled, nor are the flags of a block.
- MMTree.NewSeededTree: seeding again into a pool in use (`cop_MMTree_insertmappedblock` a second time) and `cop_MMTree_topoffmappedblock` are not part of the runs.
- SoloThread.SoloMalloc: the state machine does not start calls with an alignment of 0, which may end the process.
- PoolSafety.CarveSafeIff: mapped blocks that take the address space but for fewer bytes than the alignment asked for; `PoolSafety.RunSafe` does not need this.
- SharedTerritory.RunApart: `posix_memalign` and the mapping are one answer, given when the block lock is held; the source allocates just before taking it, holding the remaining lock.
- Progress.CallsFinish: fairness of the semaphores is not modelled; the lemma gives a schedule, and `StepDrains` bounds every one.
- BlockList.RemapPool: the process exit is a result, after which nothing is said about the list.
- Asym.SetUp: operands of 2^61 bytes and over, for which `Asym.HugeOperandSelectsFirst` says which row is selected but nothing is copied. Operation 20 (MNR) is in the enumeration but past the end of both tables, and is excluded, as are more operands than the operation has.
- Session.CopSession.CommitAndWait: completion codes, `errno` and the marker trace are left out; the wait ends when the coprocessor answers some request of the session.
- DdeList.GatherList.CopyWithOffset: the source has no bound check; the contract asks for a slice that exists.
- DdeList.GatherList.Append: lists of sessions created empty, whose `root` the source never sets, are not modelled.
- CrbCache.TlsCache.NextCrb: the pool always has memory for new blocks; the source does not check. Device contexts are parameters that do not change.
- What the coprocessors compute, the system interface (`cop_sys.c`, `cop_open.c`, `cop_util.c`), ioctl, mmap and inline assembly: answers of the outside world are parameters.
- `free_dec`, whose loops do not advance and which nothing calls; node counting and tree depth; empty rotation functions and other stubs.
- The symmetric and hash setup functions and the regular-expression session: single-field setters.
- Printing, environment variables, constructors run at load time, error texts, samples and performance programs.
