# A verified model of the Tukija microhypervisor's core algorithms

Tukija is a NOVA-derived microhypervisor. This project models the algorithms in it whose correctness is a property of
all runs, and proves what they promise, in Dafny 4.11. `dafny verify dfyconfig.toml` checks everything.

The model follows the form of the code. What changes memory in place is a class or a method with loops (the AVL tree
is built from node objects whose links are rewritten through pointers to links, the buddy and slab lists are real
doubly linked lists, page tables are allocated, linked and overwritten); pure code is functions; concurrent protocols
are state machines with one step per shared access or per operation, over any number of participants. Integer widths
appear where they matter: the 16-bit derivation depth, the 64-bit RCU word, the 8-bit tickets, the words of quota
transfers.

* **Mapping database.** `Bits` and `Ranges` reduce the bit tests on aligned ranges to overlap and define insertion,
  removal and lookup on sorted sequences. `AvlShape` is the theory of one-pass top-down balancing on trees and paths;
  `Avl`, `AvlRemoval` and `AvlSearch` are the pointer code, proved to compute exactly the sequence operations on a tree
  that stays balanced. `Regions` builds and punches regions with that tree. `Derivation` is the circular preorder list
  with depths, `MappingDb` the database (derivation lists, one sorted tree per space, rights, frames) and its invariant,
  `Revocation` and `Delegation` are the two operations, with the same sequence functions for the trees; `Clamping` holds
  the window arithmetic.
* **RCU.** `Rcu` is the grace-period protocol as interleaved steps of any number of CPUs, with callback lists as
  sequences, and its safety; `RcuProgress` and `RcuRounds` are what becomes of callbacks: none is lost, operations are
  wait-free, and every callback is invoked within a bounded number of rounds of the CPUs. `RcuLists` shows that the
  linked lists of a CPU are such sequences.
* **Memory.** `Blocks` (partitions into aligned blocks, canonical form), `FreeLists` (the linked free lists),
  `BuddyState` and `BuddyAllocator`; `SlabLayout`, `SlabList`, `SlabCaches`; `Radix`, `RadixGroups`,
  `RadixLeaks` (tables nobody points to), `RadixCells` and `PageCells` (the entries of one level, for flushes),
  `PageMaps` and `PageTables`; `Quotas`.
* **Cores, calls, scheduling and locks.** `CoreLending`, `Donation`, `ReadyQueue`, `TicketLock`.
* `Options`, `Lists`, `Machine`, `Counting` and `Shifts` are shared helpers.

Things the proofs brought out, each stated exactly in the model:

* The derivation depth is a 16-bit number. The preorder survives a delegation if and only if the parent's depth is below
  0xffff (`DepthLimit`); a chain that breaks it is given (`DepthOverflow`), and delegations alone reach that depth
  (`Deepest`).
* The buddy constructor divides the pool between pages and block headers. The headers fit below the list heads if and
  only if a remainder is below the page size (`HeadersFit`); a pool of 164 pages is one for which they do not
  (`HeadersOverlap`).
* A quota transfer adds and subtracts words, and the amount is any word that user code passes. With a reserve within the
  limit the test is right except for exactly the amounts whose sum with the usage wraps around and comes out small
  enough again (`TestExact`, `TransferWrapsAround`); which transfers take more than the limit, also with a reserve above
  it, is stated exactly (`TransferUnderflow`, `TransferCreatesPages`). As words, limits minus usage are conserved in
  every run without any condition (`ConservationOnWords`).
* A guard brings the reserve of an account above its limit, for a while, if and only if it needs and gets more than what
  lies beyond the reserve (`ReserveKept`, `GuardDipsIntoReserve`). A granted check makes room for the request if and only
  if usage and request do not exceed a word by as much as the surplus it settles (`RoomExactly`, `CheckWrapsAround`).
* A transfer keeps the sum of the surpluses if and only if nothing is transferred or the giver has none (`SurplusKept`);
  otherwise the sum shrinks (`SurplusIsDropped`).
* A request to return a core is kept by every operation as a whole. If a release is taken in two parts, it is dropped by
  exactly those releases that read the yield flag before the request was filed (`RequestKept`, `LostRequest`). If a
  reclamation is taken in two parts, the request it reports reaches the holder if and only if the borrower it found
  still holds the core when the flag is set, and it holds it throughout if and only if no step in between takes it away
  (`RequestReaches`, `HeldThroughout`, `MisfiledRequest`).
* The ticket lock is exclusive in every interleaving if and only if there are at most 256 contenders (`ExactBound`),
  which is the number of CPUs the configuration allows.
* Replacing a table by a large page frees that table but not tables below it: they stay allocated and charged, and no
  walk finds them again. An update leaves tables behind if and only if an entry it overwrites points to a table that is
  not freed, or to one that points to further tables (`OverwriteOrphans`, and `LeaksIff` in the contract of
  `PageTables.Pte.Update`); it does so whenever a page of the window is mapped two or more levels below
  (`SmallPageLeaks`), and two updates of new tables suffice (`LeakATable`).
* The size that a lookup returns is right, in that the whole page around the address maps to consecutive frames, until
  an update cuts a page in two; sizes stay right if and only if no window does (`SizesKept`, `KeepAStaleSize`).

## Model

| member | source | states |
|---|---|---|
| `Bits.SameBlockIsOverlap` | include/mdb.hpp:54-55 | the xor-and-shift test on two aligned ranges holds exactly when they share an address, and then the smaller one lies inside the larger one |
| `Bits.OrOfOverlap` | src/pd.cpp:233 | or-ing the bases of overlapping aligned ranges gives the larger base |
| `Ranges.EqualIsOverlap` | include/mdb.hpp:51-55 | `equal` decides overlap |
| `Ranges.LookupMeaning` | include/mdb.hpp:63-78 | a lookup finds the range that holds the address, or else the nearest one above, or proves that there is none |
| `Ranges.InsertThenRemove` | src/avl.cpp:60-163 | removal undoes insertion |
| `Ranges.InsertKeepsOrder` | src/avl.cpp:60-97 | inserting a free aligned range keeps ranges sorted and disjoint |
| `AvlShape.PlugAvl` | src/avl.cpp:60-163 | a tree with a subtree plugged into a path is balanced exactly when the subtree and the path (for its height) are |
| `AvlShape.RotateFlat` | src/avl.cpp:22-58 | rotations keep the in-order sequence |
| `AvlShape.InsertPathOk` | src/avl.cpp:78-94 | one repair at the deepest unbalanced ancestor restores balance and leaves the height above it alone |
| `AvlShape.InsertTreeOk` | src/avl.cpp:74-94 | the tree after insertion is balanced and holds the old sequence with the new node where the search ended |
| `AvlShape.FixPathOk` | src/avl.cpp:122-152 | where no ancestor absorbs the loss, repairing each one on the way down makes the whole path one level lower |
| `AvlShape.RemovePathOk` | src/avl.cpp:115-152 | repairing only from the last ancestor that absorbs the loss is enough, and the order of the nodes stays |
| `Avl.AvlTree.RotateSingle` | src/avl.cpp:22-34 | the pointer code of the single rotation turns memory holding a tree into memory holding the rotated tree |
| `Avl.AvlTree.RotateDouble` | src/avl.cpp:36-58 | the same for the double rotation, with the balance codes for all three cases of the argument |
| `Avl.AvlTree.Insert` | src/avl.cpp:60-97 | fails without change exactly when the range overlaps one anywhere in the tree; otherwise the tree in memory is balanced, every stored balance is the real one, and it holds the sorted sequence with the node added |
| `AvlRemoval.Remove` | src/avl.cpp:99-163 | removes exactly the given node; the tree in memory stays balanced with correct balances, also when the node itself is rotated on the way |
| `AvlSearch.Lookup` | include/mdb.hpp:63-78 | the loop over links returns the node that the lookup on the sorted sequence names |
| `Regions.MaxOrderIsLargest` | include/bits.hpp:57-66 | `max_order` is the largest order of an aligned block at the base that fits into the size |
| `Regions.Space.AddRegion` | include/space.hpp:54-60 | terminates; a free region becomes covered as a whole with the given attributes, and no other page changes |
| `Regions.Space.DelRegion` | include/space.hpp:62-80 | exactly one page loses its coverage; every other page keeps attribute and type |
| `Derivation.InsertedPreorder` | src/mdb.cpp:25-40 | linking a child behind its parent keeps the circular list the preorder of its tree |
| `Derivation.WithoutPreorder` | src/mdb.cpp:49-69 | unlinking a leaf does, too |
| `Derivation.RunIsDerived` | src/pd.cpp:174-192 | the nodes that a walk over greater depths visits are exactly the descendants of its first node |
| `Derivation.DepthLimit` | src/pd.cpp:93 | with a 16-bit depth the preorder survives a delegation exactly when the parent's depth is below 0xffff |
| `Derivation.DepthOverflow` | src/pd.cpp:93 | a chain of 0x1_0000 nodes is well formed and the next delegation from its end breaks it |
| `MappingDb.AddChildInv` | src/mdb.cpp:25-40 | a new child keeps the whole invariant: lists are preorders, frames and rights lie within the parent's, ranges of a space are disjoint, list and tree membership agree |
| `MappingDb.ChainConfined` | src/mdb.cpp:32-37 | a node's rights and frames lie within those of each of its ancestors |
| `MappingDb.RangesDisjoint` | src/pd.cpp:95 | two nodes of one space never overlap |
| `MappingDb.DropSound` | src/mdb.cpp:49-69 | removing a leaf from list and tree keeps the invariant except for rights, which it does not touch |
| `MappingDb.Database.CreateRoot` | include/mdb.hpp:57-61 | a new root is accepted exactly when its range is free, and keeps the invariant |
| `Revocation.BelowChildMeaning` | src/pd.cpp:171-192 | without `self`, the nodes a revocation of one node reaches are those derived from a direct child whose frames pass the test of the code |
| `Revocation.DoomedIsRevoked` | src/pd.cpp:168-192 | the tests on frames single out exactly the nodes to be revoked: with `self` every node that maps an address of the window and all that is derived from it, without `self` the subtrees of exactly those direct children that have a frame which their parent maps in the window |
| `Revocation.RevokeNode` | src/pd.cpp:168-219 | both passes over one node's subtree: exactly the nodes hit lose the rights, exactly those left without rights go from list and tree |
| `Revocation.Revoke` | src/pd.cpp:133-220 | for an aligned window: with `self` exactly the nodes of the space that map an address of the window and everything derived from them, without `self` exactly the subtrees of their direct children that share a frame mapped there, lose the named rights and are removed exactly when none are left; every other node is untouched, and the invariant holds afterwards |
| `Delegation.Delegate` | src/pd.cpp:74-131 | terminates and keeps the invariant; nothing outside the receiver's window changes; every new node is a child of the node of the sender's window it copies, with that node's part of the window and the intersected rights; every node handled that has a right to give and whose place in the receiver was free is copied; an empty window maps address by address, up to where the walk ends, what the sender maps, to the same frames; the walk gives up exactly when the sender has more nodes in the window than the quota allows, and then behind exactly that many |
| `Delegation.Deepest` | src/pd.cpp:80-93 | starting with one root, 0xffff delegations from space to space reach a valid database with a node of depth 0xffff |
| `Clamping.ClampIsIntersection` | src/pd.cpp:228-236 | clamping two aligned windows fails exactly when they are disjoint and otherwise gives their intersection |
| `Clamping.HotClampFits` | src/pd.cpp:238-256 | the windows fitted around a hot spot have the smaller order, are aligned as a delegation demands, lie in the given windows, and the one cut out holds the hot spot |
| `Clamping.PortClampFits` | src/pd.cpp:323-327 | the window that a delegation of I/O ports goes on with is aligned exactly when clamping succeeds and both bases are aligned to the smaller order, or, after a failure that is not noticed, at port 0 |
| `Rcu.StepInv` | src/rcu.cpp:43-108 | every step of every CPU keeps the protocol invariant |
| `Rcu.GracePeriod` | src/rcu.cpp:43-108 | in every interleaving a callback about to be invoked was queued before a quiet call of every CPU that has ended by now |
| `Rcu.CounterExact` | src/rcu.cpp:54-76 | the counter is the number of CPUs that still owe a quiet call for the batch, and no two CPUs advance a batch |
| `Rcu.WrapAround` | src/rcu.cpp:54-76 | in every reachable state both comparisons on wrapped 64-bit words agree with those on batch numbers, and the compare-and-swap of `start_batch` succeeds exactly when the unwrapped word is the one read before |
| `RcuProgress.NoneLost` | src/rcu.cpp:43-108 | over every run, what was passed to `Rcu::call` on a CPU is, in order, what it has invoked followed by its three lists: no callback is lost, invoked twice or overtaken |
| `RcuProgress.UpdateInvokes` | src/rcu.cpp:78-108 | once the batch that the current list waits for is complete, an update of that CPU has invoked all of the list when it returns, whatever the other CPUs do meanwhile |
| `RcuProgress.UpdatePromotes` | src/rcu.cpp:86-94 | unless callbacks wait for a batch that is not complete, an update has made all that were called before wait for a batch, or invoked them, when it returns |
| `RcuProgress.DebtIsPaid` | src/rcu.cpp:70-84 | an update makes a CPU notice a new batch, and a quiet call of one that has noticed it takes it off the counter |
| `RcuProgress.NothingHangs` | src/rcu.cpp:54-98 | in every reachable state a batch that is waited for has been asked for or is just being asked for; a running batch has a CPU that owes a quiet call or is about to complete it, and a complete one that has a successor has a CPU that is about to start it |
| `RcuRounds.WaitFree` | src/rcu.cpp:43-108 | whatever the other CPUs do, every operation is over after at most fifteen own steps and one per callback to invoke; in particular the compare-and-swap loop of `start_batch` cannot be kept going by others |
| `RcuRounds.TwoRounds` | src/rcu.cpp:54-84 | a batch that runs is complete after two rounds in which each CPU makes an update and a quiet call, in any interleaving |
| `RcuRounds.EveryCallbackRuns` | src/rcu.cpp:43-108 | in every interleaving on any number of CPUs, all callbacks that a CPU was passed have been invoked, in order, after fourteen such rounds |
| `RcuRounds.RoundExists` | src/rcu.cpp:43-108 | from every reachable state there is such a round |
| `RcuLists.EnqueueNew` | include/rcu.hpp:63-92 | an unused element is accepted and goes to the end of the waiting list |
| `RcuLists.EnqueueOld` | include/rcu.hpp:69-92 | an element of any list is refused, except that the last one of the same list is accepted again without effect on the list |
| `RcuLists.AppendCloses` | include/rcu.hpp:52-61 | appending a nonempty list gives the circular list of both in order |
| `RcuLists.Queues.Call` | include/rcu.hpp:124-130 | an element in none of a CPU's three lists is queued, any other is not queued a second time; the last waiting one is accepted once more without effect on the list, and the count is that of the accepted ones |
| `RcuLists.Queues.Complete` | src/rcu.cpp:86-87 | the current list moves to the end of the finished one |
| `RcuLists.Queues.Promote` | src/rcu.cpp:89-90 | the waiting list becomes the current one |
| `RcuLists.Queues.Invoke` | src/rcu.cpp:43-52 | every finished element is visited once, in order, and is unused afterwards |
| `Blocks.BuddyIsLive` | src/buddy.cpp:166-177 | the header read for a buddy inside the pool is that of a live block of no larger order, never a left-over inside a block |
| `Blocks.RunInOneBlock` | src/buddy.cpp:163-186 | with maximal coalescing an aligned run of free pages lies in one free block |
| `Blocks.Canonical` | src/buddy.cpp:163-196 | the free blocks are exactly the maximal aligned runs of free pages |
| `Blocks.SameFreePages` | src/buddy.cpp:163-196 | the free blocks depend only on which pages are free |
| `FreeLists.DequeueChain` | src/buddy.cpp:98-99 | the two link assignments remove one block from a circular list and touch no other list |
| `FreeLists.EnqueueChain` | src/buddy.cpp:192-195 | the link assignments put a block in front |
| `BuddyState.SplitState` | src/buddy.cpp:103-109 | one split keeps headers, lists and partition in agreement; it may overwrite the list head because that list is empty |
| `BuddyState.MergeState` | src/buddy.cpp:179-186 | one merge does |
| `BuddyAllocator.Buddy.constructor` | src/buddy.cpp:75-80 | after construction exactly the pages from the first free one on are free, coalesced, and the quota is credited for them |
| `BuddyAllocator.Buddy.Alloc` | src/buddy.cpp:88-125 | fails exactly when no aligned free run of that order exists; otherwise takes the head of a smallest maximal run that fits, removes exactly its pages and charges them |
| `BuddyAllocator.Buddy.Release` | src/buddy.cpp:143-196 | exactly the pages of the block become free, all invariants (partition, alignment, coalescing, lists) hold, and the quota is refunded |
| `BuddyAllocator.Buddy.FreeBuddy` | src/buddy.cpp:166-177 | the three tests of the loop decide whether the buddy is a free block of the same order |
| `BuddyAllocator.Buddy.ListsAreMaximalRuns` | src/buddy.cpp:88-196 | in every valid state list k holds exactly the maximal aligned runs of 2^k free pages |
| `BuddyAllocator.Buddy.AllocAndRelease` | src/buddy.cpp:88-196 | freeing what was just allocated restores all free lists as sets |
| `BuddyAllocator.HeadersFit` | src/buddy.cpp:65-73 | the block headers end below the list heads exactly when the remainder of the division is smaller than a page |
| `BuddyAllocator.HeadersOverlap` | src/buddy.cpp:65-73 | a pool of 164 pages for which they do not |
| `BuddyAllocator.PhysicallyAligned` | src/buddy.cpp:50-57 | every block is physically aligned to its size, as both assertions demand |
| `SlabLayout.LayoutFits` | src/slab.cpp:66-71 | a slab holds objects exactly when one fits behind the header; then all of them do, with their links |
| `SlabLayout.ObjectInPage` | src/slab.cpp:35-40 | an object and its link lie behind the header in the page, and the page can be recovered from the address |
| `SlabLayout.ObjectsApart` | src/slab.cpp:35-40 | objects do not overlap each other |
| `SlabLayout.ObjectAligned` | src/slab.cpp:66-71 | objects have the requested alignment |
| `SlabList.UnlinkChain` | src/slab.cpp:126-129 | the link assignments take one slab out of the list |
| `SlabList.LinkAfterChain` | src/slab.cpp:131-136 | the link assignments put one slab behind another |
| `SlabCaches.LiveMeansRoom` | src/slab.cpp:54-57 | the early return of `Slab::free` is never taken for a live object |
| `SlabCaches.SpareMeansEmpty` | src/slab.cpp:162-172 | a slab has no live object exactly when its free list holds all of them, which is what the code tests |
| `SlabCaches.Cache.BuildFree` | src/slab.cpp:28-41 | the constructor's loop lists every object of the slab once, lowest address on top |
| `SlabCaches.Cache.Grow` | src/slab.cpp:79-88 | a new slab becomes head and current; no object becomes live |
| `SlabCaches.Cache.Alloc` | src/slab.cpp:90-107 | both assertions hold, the object was not live before and is the only one that becomes so; slabs with free objects stay in front of full ones, current is the last of them, and with two or more objects per slab only the head can be empty; a slab and its page are added exactly when every object of every slab was live |
| `SlabCaches.Cache.Free` | src/slab.cpp:109-175 | exactly the given object stops being live; the order of the list is mended in all cases, with an empty slab moved to the head or destroyed; a slab and its page are given up exactly when there are two or more objects per slab, the object was the last live one of its slab and another slab had none |
| `Radix.ResolveElsewhere` | src/pte.cpp:60-76 | a changed table entry affects only addresses whose walk goes through it |
| `Radix.OverwriteMeaning` | src/pte.cpp:99-113 | overwriting an entry and freeing the table it pointed to changes the translation of exactly the addresses below that entry |
| `RadixLeaks.OrphansAreHomeless` | src/pte.cpp:35-54 | the tables that no chain of pointers from the root reaches are exactly those the invariant has no place for |
| `RadixLeaks.OverwriteOrphans` | src/pte.cpp:99-113 | overwriting an entry never brings an unreachable table back, and makes none exactly when the entry is no pointer, or the table it points to is freed and points to no table |
| `RadixLeaks.LeakedTable` | src/pte.cpp:109-112 | three levels of tables in which a large page frees the table it replaces and leaves the one below it behind |
| `RadixGroups.GroupRange` | src/pte.cpp:82-99 | the entries of an aligned group are those of the addresses of the window |
| `RadixGroups.WindowLeaf` | src/pte.cpp:69-73 | in both formats (group order recorded in the entries or not) masking the frame and or-ing the offset gives the frame base plus the address offset, and the size is that of the window or of one entry |
| `PageMaps.LeakingWindow` | src/pte.cpp:99-113 | on three levels of tables, a window that an update accepts and that meets the condition for leaving a table behind |
| `PageMaps.SmallPageLeaks` | src/pte.cpp:99-113 | an update of a window leaves tables behind whenever one of its pages is mapped two or more levels below the level of the update |
| `PageMaps.SizesKept` | src/pte.cpp:69-73 | if all sizes are right before an update, they are right afterwards exactly when the window cuts no mapped page in two |
| `RadixCells.OverwrittenCell` | src/pte.cpp:99-113 | overwriting an entry and freeing what it pointed to leaves the entries of that level of all addresses outside it alone |
| `PageCells.WindowFlush` | src/pte.cpp:97-113 | the or of the flush tests over the entries of a group is the test over the addresses of the window |
| `PageCells.FlushChunk` | src/space_mem.cpp:58-131 | the or over chunks is that over all their addresses: no chunk changes an entry that a later one looks at |
| `PageTables.Pte.Lookup` | src/pte.cpp:56-77 | the loop returns the translation that the tables stand for with the size of its page, and size 0 exactly for unmapped addresses |
| `PageTables.Pte.Walk` | src/pte.cpp:35-54 | keeps every translation, allocates at most one table per level above the target and only if asked, leaves no table behind, and otherwise fails only where everything the table would cover is unmapped |
| `PageTables.Pte.Update` | src/pte.cpp:79-118 | on the flat map: the window maps to the frames from p on (or is unmapped for a = 0) and nothing else changes; pages get the size of the window, or of one entry where the order is not recorded; tables charged are those that came and went, at no time more than levels minus order/bits; a flush is asked for exactly if, above the lowest level, an entry of the window that was there is replaced by another one, and no entry of that level outside the window changes; without one no translation was lost, except at the lowest level, where none is asked for at all; no unreachable table becomes reachable, and none arises exactly when the overwritten entries point to no table, or only to tables that are freed and point to none |
| `PageTables.Pte.Check` | include/pte.hpp:111 | is granted exactly when the guard and the account behind it can pay for all tables of the update that follows, and then the guard has room for them, whatever its state was |
| `PageTables.Pte.UpdateRange` | src/space_mem.cpp:58-131 | the check-then-update loop over a window cut to the supported page order updates the whole window or a prefix of it, stopping only where the quota does not pay for the next piece, and at the first piece exactly then; at no time does usage rise above the guard's limit or above what it was before, and a mapping that got anywhere ends within the limit; one that got nowhere changed nothing; the accounts pay exactly for the tables; a flush is asked for exactly if, above the lowest level, some entry that was there is replaced by another one within the pages that were updated, also where the loop stops early, and without one no translation was lost |
| `PageTables.LeakATable` | src/pte.cpp:79-118 | new tables, one page mapped, and a large page mapped over it: a table is left that nothing points to |
| `PageTables.KeepAStaleSize` | src/pte.cpp:56-118 | two pages mapped as a group and one of them unmapped: a lookup of the other still returns the size of the group |
| `Quotas.TransferUnderflow` | include/quota.hpp:104-118 | a transfer that respects the reserve and passes the test on words takes more than the limit exactly when, with a reserve within the limit, the sum wraps around and comes out small enough, or, with a reserve above it, the sum wraps around or stays below the wrapped difference |
| `Quotas.TestExact` | include/quota.hpp:114 | with the reserve within the limit, the test on words agrees with what it is there to say except for exactly the amounts whose sum with the usage wraps around to no more than limit minus reserve |
| `Quotas.TransferWrapsAround` | include/quota.hpp:114-125 | an account that uses one page and passes the greatest amount: its limit rises by one, and the taker's becomes the greatest word or falls by one |
| `Quotas.SumGuard` | include/quota.hpp:114 | an amount that passes can really be given exactly when its sum with the usage does not wrap around |
| `Quotas.TransferCreatesPages` | include/quota.hpp:104-118 | an account for which that happens |
| `Quotas.Conservation` | include/quota.hpp:44-144 | over any sequence of operations on any accounts in which transfers that pass do not wrap around (and find the reserve within the limit where it is respected), the sum of limit minus usage changes by exactly the pages freed and allocated, and surplus stays within the limit |
| `Quotas.ConservationOnWords` | include/quota.hpp:44-144 | over every sequence of operations on any accounts, with amounts and reserves of any size, that sum changes by the pages freed and allocated and by full turns of the word |
| `Quotas.SurplusKept` | include/quota.hpp:104-132 | a transfer that passes conserves surplus exactly when the giver has none or nothing is transferred, and never adds to it |
| `Quotas.SurplusIsDropped` | include/quota.hpp:119-132 | an account whose surplus a transfer drops |
| `Quotas.RefundSettles` | include/quota.hpp:50-61 | freeing p pages lowers usage minus surplus by exactly p, for every account; surplus arises only when no usage is left, and then limit and surplus rise alike |
| `Quotas.OwedOverRuns` | include/quota.hpp:44-144 | over every sequence of operations on any accounts, with amounts of any size, the sum of usage minus surplus changes by exactly the pages allocated and freed and by the surplus that transfers to accounts without usage drop |
| `Quotas.CheckReserves` | include/quota.hpp:162-173 | if the counts do not overflow, a guard's check is granted exactly when usage plus request then fits its limit, and moves balance without changing the total |
| `Quotas.RoomExactly` | include/quota.hpp:162-173 | on any words, a check that is granted makes room for the request exactly when usage plus request is less than a full turn plus the surplus that is settled |
| `Quotas.CheckWrapsAround` | include/quota.hpp:167-172 | a request whose shortfall wraps around and is granted without being covered |
| `Quotas.GuardLifetime` | include/quota.hpp:151-178 | over the life of a guard whose checks do not overflow, the account behind it changes by exactly the net pages that went through the guard |
| `Quotas.GuardLifetimeOnWords` | include/quota.hpp:151-178 | with requests of any size, guard and account together change by these pages and by full turns of the word |
| `Quotas.ClosedOnWords` | include/quota.hpp:177 | closing a guard passes on its balance up to full turns of the word |
| `Quotas.ReserveKept` | include/quota.hpp:162-173 | if the counts do not overflow, a guard's check keeps the reserve of the account behind it within the limit exactly when it needs nothing, gets nothing or needs no more than what lies beyond the reserve |
| `Quotas.GuardDipsIntoReserve` | include/quota.hpp:162-173 | a guard can bring an account below its reserve, and closing it restores the account |
| `Quotas.Quota.TransferTo` | include/quota.hpp:104-135 | passes exactly when the test on words does, and gives the new state of both accounts on words, also when they are the same one |
| `Quotas.Quota.FreeUp` | include/quota.hpp:72-94 | the same for draining one account into another |
| `Quotas.QuotaGuard.Check` | include/quota.hpp:162-173 | computes the request and the new state of both accounts |
| `CoreLending.RunInv` | src/resource.cpp:8-94 | in every run of whole operations a core has no holder exactly when it is idle, and a yield request exists only for the holder |
| `CoreLending.GivingClears` | src/resource.cpp:19-40 | giving a core up clears the flag of the cell that does, whatever it was, and returning it that of the holder; no other flag changes |
| `CoreLending.OtherFlags` | src/resource.cpp:8-75 | every other operation changes a flag only to announce a yield or to file a request, and the value is given for every cell |
| `CoreLending.AskedAgain` | src/resource.cpp:19-75 | over every run of whole operations, a cell that has announced nothing since it last gave the core up, has workers there and occupies it when idle is asked to return it when another owner reclaims it, which is reported |
| `CoreLending.ReclaimReports` | src/resource.cpp:50-75 | a reclamation that reports success has put the owner in possession or filed a request; otherwise nothing changed; the second attempt at occupying the core succeeds exactly when nobody holds it |
| `CoreLending.NextHolderIsOwner` | src/resource.cpp:19-94 | in every run of whole operations, once a request is filed the next holder is the owner, never a third cell |
| `CoreLending.RequestKept` | src/resource.cpp:29-39 | every step keeps a filed request, except exactly the end of a release that read the flag before the request |
| `CoreLending.TwoPartsAreOne` | src/resource.cpp:19-40 | a release in two parts with nothing in between is a whole release |
| `CoreLending.LostRequest` | src/resource.cpp:29-39 | an interleaving in which such a release loses a request that was reported as filed |
| `CoreLending.ReclaimPartsAreOne` | src/resource.cpp:50-75 | a reclamation of a borrowed core in two parts with nothing in between is a whole one |
| `CoreLending.RequestReaches` | src/resource.cpp:60-67 | a request that is reported as filed reaches the holder exactly when the core still is with the borrower that the reclamation found; otherwise another cell is left with the flag and nobody new is asked |
| `CoreLending.RequestReachesAfter` | src/resource.cpp:50-75 | the same over every run of whole operations between the two parts |
| `CoreLending.TakesExactly` | src/resource.cpp:19-94 | which operations take a core from the cell that holds it |
| `CoreLending.HeldThroughout` | src/resource.cpp:19-94 | a cell holds a core throughout a run of whole operations exactly when none of them takes it away |
| `CoreLending.RequestReachesIf` | src/resource.cpp:50-75 | a request that is reported as filed reaches the holder after every such run, among them all runs without returns, reclamations and releases by the borrower |
| `CoreLending.MisfiledRequest` | src/resource.cpp:60-67 | an interleaving in which the borrower releases in between: success is reported, the flag stays with a cell that does not hold the core, and a third cell gets it |
| `CoreLending.CoreAllocator.Alloc` | src/core_allocator.cpp:7-70 | returns the number of cores gained or asked back and changes no other core; a core outside the reserved ones is gained only if no reserved core stays idle, one is asked back only if no core stays idle, and it falls short only when no core is idle and no reserved core can be asked back |
| `Donation.ChainEnds` | src/syscall.cpp:62-68 | every chain of partners ends after fewer links than there are contexts |
| `Donation.NoCycle` | src/syscall.cpp:62-68 | no context waits for itself through others |
| `Donation.CalledLinks` | src/syscall.cpp:163-170 | a call to a ready server keeps the links mutual and the graph free of cycles |
| `Donation.RepliedLinks` | include/ec.hpp:197-214 | a reply does, too |
| `Donation.RepliedState` | src/syscall.cpp:210-234 | whatever continuation a reply leaves, and whether or not anybody waited: the server has it and serves nobody, its caller waits for nobody, and nothing else changes |
| `Donation.ReplyUndoesCall` | src/syscall.cpp:163-234 | a reply restores all links and continuations that the call changed |
| `Donation.Cpu.Activate` | src/syscall.cpp:62-74 | terminates at the end of the chain with the link count equal to its length |
| `Donation.Cpu.Call` | src/syscall.cpp:136-176 | a ready server gets the message and runs; a busy one is helped unless the caller does not want to wait, and then the end of its chain runs; a dead one refuses; the invariant holds |
| `Donation.Cpu.Reply` | src/syscall.cpp:210-234 | the caller runs next exactly when it lies on the chain that was activated, which the link counter tells; otherwise the end of the chain from the scheduling context's own context does |
| `ReadyQueue.JoinedCircle` | src/sc.cpp:79-81 | the link assignments in front of the head put a context at the end of a circular list |
| `ReadyQueue.LeftCircle` | src/sc.cpp:106-108 | the link assignments take a context out of a circular list |
| `ReadyQueue.Scheduler.Enqueue` | src/sc.cpp:61-95 | a context goes to the end of the queue of its priority, or to its head if it has time left; used-up time is renewed, the top priority and all other queues stay right |
| `ReadyQueue.Scheduler.Dequeue` | src/sc.cpp:97-111 | exactly that context leaves its queue, and the top priority is the highest one with anyone in it |
| `ReadyQueue.Scheduler.Schedule` | src/sc.cpp:120-157 | the next context is the first one of the highest priority that anyone ready has, the old one included unless suspended (then it may be linked into a wait queue), and only it leaves the queues; the old one keeps the time the timer says, renewed if it is queued with none; where nobody has a higher priority, the old one goes on if it has time left, and otherwise the line of its priority moves on by one |
| `ReadyQueue.TakeTurns` | src/sc.cpp:61-157 | contexts of one priority that use up their time take turns: the n-th turn is that of the n-th context, counted round the line |
| `ReadyQueue.Scheduler.Wait` | include/ec.hpp:373-383 | a context that is linked into a wait queue leaves the ready queues as they are |
| `TicketLock.LockWorks` | include/spinlock.hpp:33-52 | for up to 256 contenders, in every interleaving: at most one inside, entries in the order of tickets, and the one whose turn it is holds the ticket being served |
| `TicketLock.NextGetsIn` | include/spinlock.hpp:33-46 | in every interleaving of up to 256 contenders the one whose turn it is gets in with a comparison, a load and another comparison, wherever it stands |
| `TicketLock.TurnKept` | include/spinlock.hpp:33-52 | and its turn lasts until it has unlocked, whatever the others do |
| `TicketLock.ExactBound` | include/spinlock.hpp:33-52 | mutual exclusion in every interleaving holds exactly for up to 256 contenders |

## Left out

- Keep-in-mdb revocation (`kim`), UTCB nodes and `xlt_crd`: they do not keep the derivation invariant or only read it.
- `node_sub` and `node_type` of mappings, IOMMU and TLB flushes, preemption inside the loops, and the roll-back of a delegation whose page-table update runs out of memory.
- Delegation.Delegate: requires aligned windows, which the delegation of I/O ports does not always pass on (see `PortClampFits`), and that no sender node in the window has depth 0xffff (see `DepthLimit`); the quota is the number of turns of the loop in which its test passes, and a node that is inserted and removed again because no rights are left is modelled as no change.
- Revocation.Revoke: requires an aligned window; a range descriptor whose base is not aligned to its order is not modelled.
- AvlRemoval.Remove: requires that the node is in the tree or overlaps nothing in it; the code compares ranges and not nodes.
- Locks around the mapping database, the allocators and the quotas: their operations are modelled one after the other.
- The mapping database uses the sequence operations that the AVL code is proved to compute, not tree objects in memory.
- The callbacks that `Rcu::invoke_batch` runs, and elements that two CPUs enqueue at the same time. A fixed set of CPUs is online, and a CPU does not run `Rcu::quiet` in the middle of `Rcu::update`. Wake-up interrupts for long lists are left out.
- Memory order weaker than one shared access after the other.
- `Buddy::alloc` and `Buddy::free` over several pools, filling of blocks, and the panic on exhaustion.
- BuddyAllocator.Buddy.Release: requires a block in use; on a stale header inside a block the code's assertion on the tag may pass.
- Slab_cache::free(Quota &), which destroys all slabs at once. A cache without room for a single object in a slab is not constructed.
- Bit encodings of page-table entries: an entry is empty, a leaf or a pointer to a table. Addresses are page numbers within the address space. The compare-and-swap in `walk` always succeeds, and `clear`/`free_up` are left out.
- PageTables.Pte.Walk: requires that no large page lies above the target level, where the code would take its frame for a table.
- PageTables.Pte.UpdateRange: requires that no large page lies above the level of the pieces, for the same reason, and that page counts with the request are words.
- PageTables.Pte.Update: requires that no large page lies above the target level, where the code would take its frame for a table.
- `Quota::alloc`, `free` and `free_up` count pages that exist and limits that add up without overflow; transfers and checks are on words.
- PageTables.Pte.Check: requires that the page counts of guard, account and tables with the request are words.
- The bitmaps of a cell's information page, waking and blocking of workers, the time limit on waiting for a release, and `Core_allocator::transfer`.
- CoreLending.NextHolderIsOwner: takes each resource operation as one step and user code as announcing a yield only by moving its flag from 0 to a value other than 1; a return is only made for a core that is held.
- Cross-CPU calls, out-of-memory portals, migration, reference counts and timeouts of execution contexts; `Ec::delegate` of message items.
- Remote queues, disabled scheduling contexts, timers and time accounting (src/sc.cpp), vTLB, devices and boot code.
- ReadyQueue.Scheduler.Schedule: requires someone ready when the current context is suspended, as the code's assertion does.
