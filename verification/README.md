# Verified models of the xchain node

Dafny models of the parts of the node in which several pieces of state have to stay in step, with proofs
that they do. `dafny verify dfyconfig.toml` checks everything.

| files | what they model |
|---|---|
| `BmtReference`, `BmtMachine`, `BmtInvariant`, `BmtSteps`, `BmtTheorems`, `BmtHasher` | the concurrent binary Merkle tree hasher against its recursive reference |
| `BlockTree`, `HeaderChain`, `BlockChain`, `TxPoolReset` | headers and blocks, fork choice, the canonical index, reorganisations, the transaction lookup index |
| `Heap`, `TxSortedMap`, `TxList`, `TxPricedList`, `PendingLevels`, `PendingEviction` | the indexes of the transaction pool and its fair eviction |
| `StateTransition`, `StateProcessor` | gas and balances over a message and over a block |
| `Feed` | the event feed under concurrent subscription, unsubscription and sending |
| `ChainIndexer` | background indexing of sections while the chain reorganises |
| `DerivationPath` | parsing and printing of wallet derivation paths |
| `Basics` | an option type, a minimum, powers of two |

How things are represented: hashes are opaque numbers, zero being the empty hash, and a hash determines what it is
the hash of. Databases are maps, and writing to them does not fail. Coin flips, cache evictions, map iteration
orders and the scheduling of goroutines are nondeterministic. An object that the code updates in place is a class
with the same fields; concurrent code is a machine whose steps are the locked regions, or what a goroutine does with
one tree node at a time, and its theorems hold for every sequence of enabled steps. The virtual machine is a
parameter that returns at most the gas it is given and moves money only between accounts.

Where the code does not do what one would expect of it, the model follows the code, and the condition under which
it does is proved:

- A tree node's toggle is a 32-bit counter compared by `% 2 == 1`. The two goroutines that meet at a node are told
  apart exactly as long as the counter has not become negative (`BmtSteps.ToggleExactly`); a tree can be reused
  2^30 - 1 times (`BmtTheorems.TreeReusable`).
- The hasher clips its input to the capacity, as the reference does, unless `Write` is called again on a tree
  with an odd number of segments whose last pair it overfills (`BmtHasher.Hasher.Write`, `BmtHasher.OverfillsExample`).
- `SetHead` removes only the canonical headers above the target. The header tree is intact afterwards exactly if no
  other header was built on one of those (`HeaderChain.HeaderChain.SetHead`, `HeaderChain.OrphansExample`).
- `NewHeaderChain` resumes at the head block, not at the head header. The index fits exactly if they are the same
  (`HeaderChain.HeaderChain.Resume`).
- The comment on `insert` says that head header and fast-sync head are reset to the new head if they are older or on
  another branch. But `reorg` enters the new branch from its top downwards, and the final `insert` finds the number
  already right. So after a reorganisation that drops a block they stand at the lowest block of the new branch, which
  is the new head exactly if the branch is one block long (`BlockChain.HeadsFollowExactly`, `BlockChain.HeadsLagExample`).
- A block whose parent has nothing but a total difficulty, left over from a failed state commit, is refused if it
  would be the new head. Otherwise it is stored without its parent, and only then is the block tree no longer intact
  (`BlockChain.BlockChain.WriteBlockAndState`).
- Eviction is to leave all accounts above a level at that level. For a given order in which the offenders are popped
  it does so exactly if none is popped before a longer one that has to be cut (`PendingEviction.FairOrderExactly`).
  The priorities are 32-bit floats, which guarantee such an order exactly if they tell those lengths apart
  (`PendingEviction.FairExactly`); up to 2^24 transactions they do (`PendingEviction.ShortListsAreFair`), with one more
  they need not (`PendingEviction.CollisionExample`). That only the cut transactions leave, and that the counter is
  the real sum, holds in any order (`PendingEviction.RunTracks`).
- The price bump is added to 100 in 64-bit arithmetic, which is exact up to 2^63 - 101 (`TxList.PercentExactly`).
- A message that ends with all its gas left never gets the payment back, nor does the block. Whatever the virtual
  machine does this cannot happen exactly to messages that buy no gas, and to ordinary ones, which pay for being sent
  (`StateTransition.NeverLosesExactly`); the creation of a system contract always loses all it bought
  (`StateTransition.SystemCreationLoses`).
- The comment at the end of `updateLoop` promises that a section is stored only if no reorganisation occurred
  meanwhile. It is stored exactly if the headers read are all there and linked to the section before, and no notified
  reorganisation reached below the section (`ChainIndexer.StoredExactly`); one that begins inside the section can go
  unnoticed, after which a replaced block is a stored section head (`ChainIndexer.ReorgUnnoticedExample`).
- The documentation of `ParseDerivationPath` says that white space is ignored. That is so everywhere but inside a
  number, where it makes the path an error (`DerivationPath.PathWhitespaceExactly`,
  `DerivationPath.InnerWhitespaceExample`).

## Model

| member | source | states |
|---|---|---|
| `BmtHasher.HasherAgreesWithReference` | bmt/bmt.go:293-373 | For every input, every clean tree and every schedule of the goroutines: if the hasher returns, it returns exactly the hash of the recursive reference over the input clipped to capacity. |
| `BmtTheorems.EveryRunReturns` | bmt/bmt.go:293-320 | Every schedule is bounded in length, and as long as the caller has not returned some step is possible: no deadlock, no endless run. |
| `BmtTheorems.ReturnsTreeValue` | bmt/bmt.go:442-494 | Whatever the schedule, the value returned is the value of the tree over the pairs of segments. |
| `BmtTheorems.TreeReusable` | bmt/bmt.go:425-439 | After every run the tree is clean again: no node unbalanced, only the top one marked root, exactly the nodes with data on both sides toggled, twice each; so it can be used again until the counters reach 2^31. |
| `BmtTheorems.TreeRestored` | bmt/bmt.go:425-439 | In any state satisfying the invariant in which the caller has returned, the marks of `finalise` are gone and the toggles of the used nodes have gone up by two. |
| `BmtTheorems.StepKeepsInv` | bmt/bmt.go:442-494 | Every step of the caller or of a goroutine keeps the invariant that ties node data, toggle counts and marks to what each goroutine carries. |
| `BmtTheorems.RunKeepsInv` | bmt/bmt.go:463-494 | The same over whole schedules. |
| `BmtTheorems.Progress` | bmt/bmt.go:463-494 | Until the result is received some step is enabled. |
| `BmtTheorems.RunsAreBounded` | bmt/bmt.go:463-494 | The length of a schedule plus the measure of the state it reaches is at most the measure of the state it starts from. |
| `BmtTheorems.AllStopped` | bmt/bmt.go:476-494 | Once the root has emitted its value no goroutine touches the tree any more. |
| `BmtTheorems.ReadsUndisturbed` | bmt/bmt.go:463-473 | While a goroutine is at a node, no step of the caller or of another goroutine changes whether the node is unbalanced, so it does not matter when it asks. |
| `BmtTheorems.CombinesUndisturbed` | bmt/bmt.go:474-489 | Once it has toggled, none changes anything of the node. |
| `BmtTheorems.RunUndisturbed` | bmt/bmt.go:463-494 | The same over whole schedules in which the goroutine does not move: reading the fields of a node one by one gives what reading them at once does. |
| `BmtTheorems.RestoredIsClean` | bmt/bmt.go:425-439 | A restored tree is one the pool may hand out. |
| `BmtSteps.ToggleExactly` | bmt/bmt.go:509-511 | The first of two toggles waits and the second goes on exactly if the even counter is not negative. |
| `BmtSteps.ThreadStepKeepsInv` | bmt/bmt.go:442-494 | Each of the steps of a goroutine (hashing its pair, storing, toggling, combining) keeps the invariant. |
| `BmtSteps.Emitted` | bmt/bmt.go:474-483 | What a goroutine computes at a node is the value of the subtree below it. |
| `BmtInvariant.InvStart` | bmt/bmt.go:497-505 | The invariant holds when a clean tree is reserved. |
| `BmtInvariant.CallerStepKeepsInv` | bmt/bmt.go:293-310 | Pushing pairs, marking the zig-zag path, launching the last goroutine and releasing the tree keep the invariant. |
| `BmtInvariant.FinaliseKeepsInv` | bmt/bmt.go:530-547 | Marking the next node of the last pair's path keeps it, whatever the other goroutines are doing. |
| `BmtHasher.ResultIsReference` | bmt/bmt_r.go:67-85 | The value of the tree over the pairs of the clipped input is the reference hash. |
| `BmtHasher.ValIsNodeValue` | bmt/bmt.go:463-494 | What node i at height k emits is the hash tree over the stretch of the data below it, short right edges included. |
| `BmtHasher.LevelIsAll` | bmt/bmt.go:463-494 | At every height the stretches below the nodes make up the whole data. |
| `BmtHasher.NewTree` | bmt/bmt.go:253-276 | The new tree has all nodes of its depth, is clean and unused. |
| `BmtHasher.NewLevel` | bmt/bmt.go:261-267 | One more level of new nodes below those there are. |
| `BmtHasher.Depth` | bmt/bmt.go:521-527 | The number of levels above the leaves that the segments need. |
| `BmtHasher.ChunkFits` | bmt/bmt.go:334-373 | Any input, clipped to capacity and cut into pairs, has a leaf for each pair. |
| `BmtHasher.JoinPieces` | bmt/bmt.go:334-373 | Cutting into pairs loses nothing. |
| `BmtHasher.PiecesUnique` | bmt/bmt.go:334-373 | A list of pairs of which all but the last are full is the cut of its concatenation. |
| `BmtHasher.Hasher.constructor` | bmt/bmt.go:407-413 | A reset hasher holds no data. |
| `BmtHasher.Hasher.Write` | bmt/bmt.go:334-373 | After any number of writes the launched pairs and the current segment are the data so far clipped to capacity, exactly if the write does not overfill the last pair; in any case the whole length is reported as written. |
| `BmtHasher.Hasher.Push` | bmt/bmt.go:357-368 | The loop that launches full pairs moves data from the input to the pairs without losing any. |
| `BmtHasher.Hasher.DataIsCut` | bmt/bmt.go:334-373 | Launched pairs and current segment are the cut of the data. |
| `BmtHasher.OverfillsExample` | bmt/bmt.go:341-354 | One byte written to a tree of three one-byte segments, then three more, overfills it. |
| `BmtReference.NewRefHasher` | bmt/bmt_r.go:39-55 | The reference's span is a section doubled some number of times, at least half the capacity. |
| `BmtReference.RefHasherHash` | bmt/bmt_r.go:67-85 | The recursion with its inner halving loop computes the reference hash. |
| `BmtReference.RefHashIsNodeValue` | bmt/bmt_r.go:67-85 | The reference hash does not depend on the span it starts from: it is the tree value at any height the data fits under. |
| `BmtReference.ReferenceClosedForm` | bmt/bmt_r.go:59-65 | The reference hash of the clipped input in terms of tree values. |
| `BmtReference.SpanIsWidth` | bmt/bmt_r.go:39-55 | The span is the width of some level, at least half the capacity. |
| `BlockTree.FindCommonAncestor` | core/database_util.go:685-709 | Terminates and returns the highest common ancestor along parent links, or nothing exactly if the two have none. |
| `BlockTree.HighestCommonUnique` | core/database_util.go:685-709 | There is only one highest common ancestor. |
| `BlockTree.CommonAncestorExists` | core/database_util.go:685-709 | In a tree with one genesis it exists, the two paths agree up to it and nowhere above. |
| `BlockTree.PathsAgree` | core/database_util.go:685-709 | Two paths that agree at a number agree at all lower ones. |
| `BlockTree.AncestorOnPath` | core/database_util.go:685-709 | Walking parent links is reading the path from genesis. |
| `BlockTree.RootedAdd` | core/headerchain.go:131-195 | Adding a header below a stored parent keeps a single tree, and extends the parent's path by it. |
| `HeaderChain.HeaderChain.constructor` | core/headerchain.go:93-104 | With only a genesis, index, total difficulty and head are in order. |
| `HeaderChain.HeaderChain.Resume` | core/headerchain.go:93-104 | On a database left by a header chain in order: the head is that of the head block, or the genesis if that is unknown, and everything is in order again exactly if that is the head header. |
| `HeaderChain.HeaderChain.WriteHeader` | core/headerchain.go:131-195 | Keeps: the canonical index is exactly the path from genesis to the current header with nothing above, every total difficulty is the sum along its path, the current header is heaviest, no cache disagrees with the database. Reports an unknown ancestor exactly if the parent is missing, and then changes nothing. |
| `HeaderChain.HeaderChain.Choose` | core/headerchain.go:155-192 | The fork choice: a heavier header becomes the head, a lighter one does not, one of equal weight may; either way index and caches are in order. |
| `HeaderChain.HeaderChain.Reroute` | core/headerchain.go:157-183 | Moving the head to any stored header makes the index exactly its path. |
| `HeaderChain.HeaderChain.DropAbove` | core/headerchain.go:157-163 | Entries above the new head are removed up to the first gap, which removes all of them. |
| `HeaderChain.HeaderChain.Overwrite` | core/headerchain.go:164-176 | The overwrite loop ends at or before the genesis and leaves every lower number right. |
| `HeaderChain.HeaderChain.InsertHeaderChain` | core/headerchain.go:259-291 | A linked batch is stored up to the first failure or interruption, known headers skipped, with all of the above kept. Uninterrupted it succeeds exactly if its first header or that one's parent is stored, and otherwise fails at the first; the index returned is that of the failing header, or zero. |
| `HeaderChain.HeaderChain.InsertNext` | core/headerchain.go:269-277 | One header of the batch: skipped if known, otherwise written; fails exactly if it is unknown and its parent is missing. |
| `HeaderChain.HeaderChain.GetTd` | core/headerchain.go:318-332 | Only ever the stored total difficulty; found exactly if it is cached, under whatever number, or stored under that number. |
| `HeaderChain.HeaderChain.StoreHeader` | core/headerchain.go:340-346 | Writing difficulty and header through keeps every cache in agreement with the database. |
| `HeaderChain.HeaderChain.GetHeader` | core/headerchain.go:350-364 | Only ever the stored header; found exactly if it is cached, under whatever number, or stored under that number. |
| `HeaderChain.HeaderChain.HasHeader` | core/headerchain.go:371-377 | True only for stored headers, and for all stored under that number. |
| `HeaderChain.HeaderChain.GetHeaderByNumber` | core/headerchain.go:381-387 | The current header's ancestor at that number, or nothing above it. |
| `HeaderChain.HeaderChain.SetHead` | core/headerchain.go:410-443 | Leaves precisely the canonical entries up to the target, makes the last one the head, deletes header and difficulty of every canonical block above, empties the caches; the whole invariant survives exactly if no header lost its parent. |
| `HeaderChain.RewoundExactly` | core/headerchain.go:410-443 | In numbers: exactly the headers of the old path above the target are gone, the new head is the one at the target or the lower old one, and exactly the numbers up to it are canonical. |
| `HeaderChain.HeaderChain.RemoveAbove` | core/headerchain.go:416-425 | The deletion loop removes exactly the path above the target. |
| `HeaderChain.HeaderChain.RollBack` | core/headerchain.go:426-429 | The numbering loop leaves exactly the lower part of the path. |
| `HeaderChain.Truncated` | core/headerchain.go:410-443 | After such a cut the chain is in order if and only if no header that stays has lost its parent. |
| `HeaderChain.OrphansExample` | core/headerchain.go:410-443 | A chain in order whose path is 1, 2, 3, with a fourth header on 2: cutting the path to its genesis leaves that one without a parent. |
| `HeaderChain.AddedAside` | core/headerchain.go:137-155 | A header stored beside the chain leaves index and difficulties right, and the heavier of it and the head is heaviest. |
| `HeaderChain.WeightsAfterAdd` | core/headerchain.go:137-146 | Parent's total plus own difficulty is the sum along the new header's path. |
| `BlockChain.BlockChain.WriteBlockAndState` | core/blockchain.go:859-939 | Which outcome happens, and what then changes. After every outcome but one: for each number up to the head the canonical hash is that of the head's ancestor, the lookup index is exactly what a scan of the chain finds, difficulties are path sums and the head is heaviest; numbers above a new head are left alone. The one exception is exactly a block stored beside the chain whose parent has only a total difficulty. Also where the other heads are left. |
| `BlockChain.BlockChain.AddOrphan` | core/blockchain.go:877-932 | The block whose parent is not stored: refused with nothing but its difficulty written, or stored beside the chain, by its weight. |
| `BlockChain.BlockChain.ReorgOrphan` | core/blockchain.go:1181-1221 | The walk of `reorg` to such a block fails, whichever of the two is higher. |
| `BlockChain.BlockChain.AddBlock` | core/blockchain.go:877-934 | The same once the parent is known and the block is new. |
| `BlockChain.BlockChain.Promote` | core/blockchain.go:909-935 | The block becomes the head with all indexes in order; where this leaves the head header and the fast-sync head. |
| `BlockChain.BlockChain.MakeHead` | core/blockchain.go:909-934 | With a reorganisation or without, the new head's path and transactions are indexed; numbers above it are untouched. |
| `BlockChain.BlockChain.Switch` | core/blockchain.go:911-919 | The same for a block that does not extend the head. |
| `BlockChain.HeadsFollowExactly` | core/blockchain.go:1233-1237 | After a reorganisation that drops a block, head header and fast-sync head stand right above the fork; they are the new head exactly if its branch is one block long. |
| `BlockChain.LowestMoves` | core/blockchain.go:1235-1237 | Of a branch entered from its top downwards the lowest block moves those heads last. |
| `BlockChain.HeadsLagExample` | core/blockchain.go:1235-1237 | A branch of two blocks that leaves those heads at its lower one. |
| `BlockChain.BlockChain.Reorg` | core/blockchain.go:1158-1251 | Finds the fork and rewrites exactly the part above it: the new branch's numbers and entries in, entries only the old branch had out. |
| `BlockChain.BlockChain.FindFork` | core/blockchain.go:1181-1221 | The two walks meet at the highest common block and collect exactly the two branches and the old one's transactions. |
| `BlockChain.BlockChain.Lower` | core/blockchain.go:1181-1195 | The longer side is walked down to the other's height, collecting its blocks and transactions. |
| `BlockChain.BlockChain.WalkDown` | core/blockchain.go:1203-1221 | Both sides are walked down together to the first common block. |
| `BlockChain.BlockChain.SwitchTo` | core/blockchain.go:1233-1251 | The new branch is entered from its top down, and what only the old branch had is deleted; the other heads are the last block whose entry changed the index. |
| `BlockChain.BlockChain.Insert` | core/blockchain.go:527-549 | One canonical number and the current block change; the head header and the fast-sync head follow exactly if the block was not yet the canonical one of its number, or if forced. |
| `BlockChain.BlockChain.WriteTxLookupEntries` | core/database_util.go:529-546 | One entry per transaction, with its block and position. |
| `BlockChain.BlockChain.GetTransaction` | core/database_util.go:309-338 | Lookup by hash agrees with a linear scan of the chain from the head down. |
| `BlockChain.LookupAgreesWithScan` | core/database_util.go:309-320 | An index with an entry exactly for the transactions on the path, at their true positions, answers like a scan. |
| `BlockChain.ScanFinds` | core/database_util.go:309-320 | The scan finds only what is there and misses nothing. |
| `BlockChain.ReorganisedOk` | core/blockchain.go:1233-1251 | After a reorganisation of any depth canonical index and lookup index are right for the new chain, and numbers at or below the fork are unchanged. |
| `BlockChain.SwitchedIsScan` | core/blockchain.go:1235-1251 | Entering the new branch and deleting the difference of the transaction lists turns one correct lookup index into the other. |
| `BlockChain.BranchTxs` | core/blockchain.go:1184-1211 | The collected transactions are those on the path above the fork. |
| `BlockChain.TdLeftOver` | core/blockchain.go:881-900 | A failed state commit leaves a total difficulty behind, which disturbs no stored block. |
| `BlockChain.Extended` | core/blockchain.go:909-934 | A block on top of the head extends path and lookup index by itself. |
| `TxPoolReset.Reset` | core/tx_pool.go:372-420 | The reinjected transactions are exactly those on the old branch above the highest common ancestor that are not on the new branch; nothing on a plain extension, nothing if the heads are more than 64 apart in height. |
| `TxPoolReset.Converge` | core/tx_pool.go:408-419 | Both sides walked down together until they meet, collecting exactly the transactions above. |
| `TxPoolReset.Lower` | core/tx_pool.go:394-407 | The longer side walked down to the height of the other. |
| `TxPoolReset.SameAncestor` | core/database_util.go:685-709 | The fork that `reset` finds is the common ancestor that `FindCommonAncestor` finds. |
| `PendingEviction.Pool.Equalise` | core/tx_pool.go:1033-1103 | Is the run of the eviction for some order in which a queue with these priorities may hand out the offenders, for every iteration order. The running counter is the real sum and exactly the cut transactions leave the pool. If the priorities tell the offenders apart where it matters, the result is fair: one level such that every non-local account ends with the first so many of its transactions, not below the account limit, low enough or at that limit, and no lower than needed. |
| `PendingLevels.EvictionBounds` | core/tx_pool.go:1033-1103 | What that means: locals untouched, others at the minimum of their length and the level, none below the account limit, total within the limit or all others within the account limit, nothing cut if there was room. |
| `PendingLevels.FairUnique` | core/tx_pool.go:1033-1103 | The outcome does not depend on the order in which accounts of equal length are popped. |
| `PendingEviction.FairExactly` | core/tx_pool.go:1041-1103 | The eviction is fair, whichever of several accounts of equal priority the queue prefers, if and only if the priorities tell offenders of different length apart wherever the longer one has to be cut. |
| `PendingEviction.FairOrderExactly` | core/tx_pool.go:1050-1103 | For a given order of pops it is fair if and only if no offender is popped before a longer one that has to be cut. |
| `PendingEviction.WellQueuedIsFair` | core/tx_pool.go:1050-1103 | The one half: such an order leads to a fair level without a panic. |
| `PendingEviction.BadlyQueued` | core/tx_pool.go:1050-1103 | The other half: after any other order no level fits; the shorter account loses at least as much as the longer one, and ends below the account limit if the longer one is popped last and the total is not met. |
| `PendingEviction.RunTracks` | core/tx_pool.go:1050-1103 | In any order of pops lists are cut only at their end, exactly the cut transactions leave the pool, and the counter is the real sum. |
| `PendingEviction.RoundsLevel` | core/tx_pool.go:1060-1078 | Rounds over accounts of one length end with the total met or all at the threshold, and none was needless. |
| `PendingEviction.RoundLevel` | core/tx_pool.go:1062-1077 | A round brings offenders of one length one level down. |
| `PendingEviction.PopsLevel` | core/tx_pool.go:1050-1080 | Popped in such an order, those popped stay level with one another and not below the next. |
| `PendingEviction.QueueExists` | core/tx_pool.go:1052-1052 | The queue may hand out any account before the others of its priority. |
| `PendingEviction.ShortListsAreFair` | core/tx_pool.go:1045-1045 | With lists of up to 2^24 transactions the priorities tell all offenders apart. |
| `PendingEviction.CollisionExample` | core/tx_pool.go:1045-1045 | Two accounts of 2^24 and 2^24 + 1 transactions, one slot short: some order the queue may choose is not fair. |
| `PendingEviction.Pool.Level` | core/tx_pool.go:1048-1080 | The popping loop is the functional one for some order in which a queue with these priorities may hand out the offenders. |
| `PendingEviction.Pool.Rounds` | core/tx_pool.go:1060-1078 | The loop of rounds, until the total is met or the last offender is at the threshold; terminates. |
| `PendingEviction.Pool.Round` | core/tx_pool.go:1062-1077 | Each offender loses its last transaction, the counter and the set of known transactions follow; a panic exactly on an empty list. |
| `PendingEviction.Pool.CountPending` | core/tx_pool.go:1034-1037 | The sum of the list lengths. |
| `PendingEviction.Pool.Spammers` | core/tx_pool.go:1041-1047 | Exactly the non-local accounts above the account limit, each with its length as a 32-bit float. |
| `PendingEviction.Pool.PopLargest` | core/tx_pool.go:1052-1052 | Some account of the highest priority. |
| `PendingEviction.PrioritiesTellExactly` | core/tx_pool.go:1045-1045 | Float priorities tell all lengths up to a bound apart exactly if the bound is at most 2^24. |
| `PendingEviction.Float32Nearest` | core/tx_pool.go:1045-1045 | A priority is the length rounded to 24 significant bits: no such number is nearer, and of two as near it is the even one. |
| `PendingEviction.Float32Collides` | core/tx_pool.go:1045-1045 | The first two lengths with the same priority. |
| `Heap.Push` | core/tx_list.go:41-43 | A heap with one more entry. |
| `Heap.Pop` | core/tx_list.go:45-51 | A least entry leaves; what remains is a heap of the others. |
| `Heap.Remove` | core/tx_list.go:183-188 | The entry at an index leaves; what remains is a heap of the others. |
| `Heap.Init` | core/tx_list.go:136-136 | Any slice becomes a heap of the same entries. |
| `Heap.SiftUp` | core/tx_list.go:35-39 | Restores the heap when one entry may be before its parent. |
| `Heap.SiftDown` | core/tx_list.go:35-39 | Restores the heap below an entry, and tells whether it moved. |
| `Heap.RootIsLeast` | core/tx_list.go:103-103 | The first entry of a heap is a least one. |
| `TxSortedMap.SortedMap.constructor` | core/tx_list.go:62-70 | Starts empty and coherent. |
| `TxSortedMap.SortedMap.Put` | core/tx_list.go:82-91 | The map with the transaction under its nonce; the index stays a duplicate-free heap of exactly the keys, a cache exactly the sorted contents (as after every operation). |
| `TxSortedMap.SortedMap.Forward` | core/tx_list.go:96-113 | Returns, in nonce order, exactly the transactions below the threshold, and trims the cache to match. |
| `TxSortedMap.SortedMap.TakeRoot` | core/tx_list.go:104-106 | The transaction of the lowest nonce leaves map and index together. |
| `TxSortedMap.SortedMap.Filter` | core/tx_list.go:117-141 | Returns exactly the matching transactions, each once, and keeps exactly the others. |
| `TxSortedMap.SortedMap.Cap` | core/tx_list.go:145-169 | Keeps the lowest nonces up to the limit and returns the rest, highest first. |
| `TxSortedMap.SortedMap.DropFrom` | core/tx_list.go:156-160 | The loop of `Cap` over the sorted index. |
| `TxSortedMap.SortedMap.Remove` | core/tx_list.go:173-193 | The nonce leaves; tells whether it was there. |
| `TxSortedMap.SortedMap.Ready` | core/tx_list.go:203-221 | Returns the maximal run of successive nonces from the lowest one if that is no later than asked for, else nothing; 64-bit wrap-around included. |
| `TxSortedMap.SortedMap.Flatten` | core/tx_list.go:234-250 | The contents in nonce order, from the cache or not. |
| `TxSortedMap.SortedIsInOrder` | core/tx_list.go:241-244 | Sorting the contents in whatever iteration order gives the one nonce order. |
| `TxSortedMap.TakeFirst` | core/tx_list.go:103-107 | Removing the lowest nonce removes the first of the order. |
| `TxSortedMap.RootIsFirst` | core/tx_list.go:103-103 | The root of the index is the lowest nonce of the map. |
| `TxList.List.constructor` | core/tx_list.go:266-273 | Starts empty with caps that bound nothing. |
| `TxList.List.Overlaps` | core/tx_list.go:277-279 | Whether the nonce is in use. |
| `TxList.List.Add` | core/tx_list.go:286-304 | Accepts exactly if the nonce is free or the price is above the bumped old one; returns what it replaced; the caps stay upper bounds. |
| `TxList.List.Forward` | core/tx_list.go:309-311 | As for the map; contiguous nonces stay contiguous. |
| `TxList.List.Filter` | core/tx_list.go:322-348 | With its cached caps, removes exactly what a full scan without them would, and in a strict list invalidates exactly what is behind; contiguous nonces stay contiguous. |
| `TxList.List.Lowest` | core/tx_list.go:339-344 | The lowest nonce of the removed transactions. |
| `TxList.List.Cap` | core/tx_list.go:352-354 | As for the map; contiguous nonces stay contiguous. |
| `TxList.List.Remove` | core/tx_list.go:359-370 | Removes the nonce and, in a strict list, everything behind it; contiguous nonces stay contiguous. |
| `TxList.List.Ready` | core/tx_list.go:379-381 | As for the map. |
| `TxList.Partition` | core/tx_list.go:322-348 | Removed, invalidated and kept transactions partition the old contents. |
| `TxList.ScanExactly` | core/tx_list.go:322-348 | In terms of cost and gas, what a scan keeps, removes and invalidates. |
| `TxList.KeptContiguous` | core/tx_list.go:336-346 | What a scan keeps of a contiguous strict list is contiguous. |
| `TxList.FrontContiguous` | core/tx_list.go:352-354 | Cutting a tail off the nonce order keeps contiguity. |
| `TxList.NothingOver` | core/tx_list.go:324-326 | While the caps are within the limits a scan would find nothing. |
| `TxList.BrokenAbove` | core/tx_list.go:338-346 | Exactly what is above the lowest removed nonce is behind a removed one. |
| `TxList.ThresholdExactly` | core/tx_list.go:290-293 | The integer threshold admits exactly the prices above the percentage. |
| `TxList.PercentExactly` | core/tx_list.go:290-290 | The 64-bit sum is the intended percentage exactly below 2^63 - 100. |
| `TxPricedList.PricedList.Put` | core/tx_list.go:437-439 | A transaction the pool has just taken in is covered by the heap, as all others are. |
| `TxPricedList.PricedList.Removed` | core/tx_list.go:444-458 | Counts a stale entry, or rebuilds the heap from exactly the pool; coverage is kept. |
| `TxPricedList.PricedList.Cap` | core/tx_list.go:462-489 | Returns exactly the pooled remote transactions below the threshold; everything else pooled stays covered; only stale entries are lost and each is counted. |
| `TxPricedList.PricedList.TakeUnder` | core/tx_list.go:466-484 | The loop of `Cap`. |
| `TxPricedList.PricedList.Underpriced` | core/tx_list.go:493-515 | Agrees with a scan of the pool for anything cheaper, never for local senders, never on an empty pool. |
| `TxPricedList.PricedList.DropStale` | core/tx_list.go:499-507 | Stale entries at the root go, until a live one or none is there. |
| `TxPricedList.PricedList.Discard` | core/tx_list.go:519-542 | Returns pooled remote transactions, none dearer than a live remote one it leaves, and `count` of them unless no live remote one is left; coverage is kept. |
| `TxPricedList.PricedList.TakeCheapest` | core/tx_list.go:523-537 | The loop of `Discard`. |
| `TxPricedList.StillCovered` | core/tx_list.go:469-472 | Losing only stale entries keeps every pooled transaction covered. |
| `TxPricedList.TracksAfterRemoval` | core/tx_list.go:460-461 | Once the pool has removed what was returned, the heap covers it again. |
| `TxPricedList.ScanOfRoot` | core/tx_list.go:513-514 | A live root is as cheap as the cheapest pooled transaction. |
| `StateTransition.IntrinsicGas` | core/state_transition.go:99-121 | Base price plus the prices of zero and non-zero bytes. |
| `StateTransition.ByteAdds` | core/state_transition.go:99-121 | Each further byte adds the price of a zero byte or of another one, to the base price of a call or of a creation. |
| `StateTransition.GasPool.AddGas` | core/gaspool.go:27-31 | The pool grows by the amount. |
| `StateTransition.GasPool.SubGas` | core/gaspool.go:35-42 | The pool shrinks by the amount, or fails and stays exactly if it has less. |
| `StateTransition.Transition.UseGas` | core/state_transition.go:193-199 | Takes the amount, or fails exactly if there is less. |
| `StateTransition.Transition.BuyGas` | core/state_transition.go:201-224 | Takes the gas from the pool and its price from the sender together, exactly if the limit fits into 64 bits, the pool has the gas and the sender the price; otherwise fails with the first failing check and changes nothing. |
| `StateTransition.Transition.PreCheck` | core/state_transition.go:226-240 | The nonce check in front of that. |
| `StateTransition.AcceptedExactly` | core/state_transition.go:201-271 | The gas is bought exactly if the nonce is the sender's or not checked and sender and pool can pay; the message gets to the virtual machine exactly if the gas also pays for being sent; which nonce error is given when. |
| `StateTransition.Transition.Enter` | core/state_transition.go:247-272 | Purchase and payment for being sent, or the first failing check; a failure after the purchase keeps the purchase. |
| `StateTransition.Transition.Run` | core/state_transition.go:245-326 | When the message is rejected and with what, and what it leaves behind then; otherwise what the virtual machine leaves, with exactly the purchase price missing from the total balance. |
| `StateTransition.Transition.RefundGas` | core/state_transition.go:424-444 | Gives back what is left and at most half of what was used, to sender and pool alike, unless nothing was used. |
| `StateTransition.Transition.Settle` | core/state_transition.go:327-332 | Refund and coinbase fee together return exactly the purchase price to the total balance, unless nothing was used. |
| `StateTransition.Transition.TransitionDb` | core/state_transition.go:245-333 | Payment, return, refund and fee account by account: the sender gets back the price of the gas not used, the coinbase the price of that used, and all add up to zero; the pool falls by exactly the gas used, which is at least half of that before the refund and that at least the price of being sent. A rejected message changes nothing if it could not buy its gas; otherwise all the gas it bought stays taken, from sender and pool. No account is ever overdrawn, rejected messages included, if the virtual machine overdraws none. |
| `StateTransition.EnteredExactly` | core/state_transition.go:218-304 | The virtual machine finds the price paid, and for a call the sender's nonce one higher. |
| `StateTransition.GivenExactly` | core/state_transition.go:252-271 | The gas it is given and the gas paid for being sent make up the gas bought; system messages pay nothing for that. |
| `StateTransition.LostExactly` | core/state_transition.go:424-444 | Gas is lost exactly if some was bought and all of it was left, or a system contract was created. |
| `StateTransition.NeverLosesExactly` | core/state_transition.go:245-333 | No outcome of the virtual machine makes the message lose gas if and only if it buys none or is ordinary. |
| `StateTransition.SystemCreationLoses` | core/state_transition.go:280-285 | The creation of a system contract loses all the gas it bought, whatever the virtual machine does. |
| `StateTransition.CreditTotal` | core/state_transition.go:222-222 | A credit changes the total by its amount. |
| `StateProcessor.ApplyTransaction` | core/state_processor.go:119-189 | Fails exactly for the stated reasons. Otherwise the state passes on as by the message transition, account by account; pool and cumulative gas change by the same amount for ordinary transactions; the total balance stays; no account is overdrawn. |
| `StateProcessor.Process` | core/state_processor.go:72-113 | There is a chain of states, from the given one to the resulting one, in which each transaction passes from one to the next. Over a block of ordinary transactions used gas plus remaining pool is the gas limit and no money appears or disappears; each receipt's cumulative gas exceeds the one before by its own; no account is overdrawn. The first transaction that fails on the state before it makes the block invalid, and no receipts are returned. |
| `StateProcessor.AccountsExactly` | core/state_processor.go:90-109 | Over a block of ordinary transactions, for an account that the virtual machine itself leaves alone: its nonce grows by the number of its calls, it pays for the gas of its own transactions, and the coinbase gains the price of all gas used. |
| `StateProcessor.Next` | core/state_processor.go:90-109 | One round of the loop. |
| `StateProcessor.CumulativeGrows` | core/state_processor.go:163-169 | Cumulative gas never decreases. |
| `StateProcessor.SetReceiptsData` | core/blockchain.go:736-756 | Recomputes each receipt's own gas from the cumulative values, which it keeps. |
| `StateProcessor.Recovered` | core/blockchain.go:751-756 | Differencing gives back the receipts of `Process`. |
| `Feed.StepKeepsInv` | event/feed.go:104-185 | Every atomic step keeps: each subscription in exactly one of inbox and sendCases, the unsent cases in front, deliveries accounted for. |
| `Feed.RunKeepsInv` | event/feed.go:104-185 | The same for every interleaving of subscribing, unsubscribing and sending. |
| `Feed.SendDelivers` | event/feed.go:129-185 | A whole `Send`, from its start in any reachable state to its return, whatever happens meanwhile: each channel gets the value as often as it was subscribed when `Send` began, less at most once for each subscription removed meanwhile, and exactly as often if none was; none gets it more often; the result counts the deliveries. |
| `Feed.SendTakesAll` | event/feed.go:133-137 | `Send` begins with one case for each subscription there is, and leaves the inbox empty. |
| `Feed.RunRecords` | event/feed.go:149-177 | What a run of a `Send` delivers and removes, step by step, is what its record says. |
| `Feed.AtMostOnce` | event/feed.go:149-177 | At any time during `Send`, no case got the value twice and every deactivated one got it. |
| `Feed.InOneList` | event/feed.go:88-125 | However often a channel is subscribed, its cases in the two lists are as many as its subscriptions, in force or being removed; those being removed are not in the inbox. So a single one is in exactly one list. In force are as many as were subscribed and not unsubscribed, being removed as many as were unsubscribed and not yet removed, counted over the run. |
| `Feed.LeadsCounts` | event/feed.go:72-125 | The same counts between any two states of a run. |
| `Feed.NeverPanics` | event/feed.go:117-125 | `find` never fails for a channel that is being removed, and no index is out of range. |
| `Feed.SendProgresses` | event/feed.go:151-177 | Every step of `Send` brings it closer to its end. |
| `Feed.Find` | event/feed.go:208-215 | Index of the first case with the channel, or -1. |
| `Feed.Delete` | event/feed.go:218-220 | In place, the cases behind move up by one and nothing beyond changes. |
| `Feed.Deactivate` | event/feed.go:223-227 | In place, the case trades places with the last of the active ones. |
| `Feed.DeactivatedParts` | event/feed.go:223-227 | Deactivation moves one case from the unsent to the sent part. |
| `Feed.DeletedUnsent` | event/feed.go:167-172 | Deletion in the unsent part leaves the sent part alone. |
| `Feed.DeletedSent` | event/feed.go:167-172 | Deletion in the sent part leaves the unsent part alone. |
| `Feed.SendCases.Retire` | event/feed.go:158-174 | Deactivation on the one backing array, of which `cases` is the front part. |
| `Feed.SendCases.Remove` | event/feed.go:167-172 | Removal on the one backing array: the first case of the channel goes, and the front part gets shorter exactly if it held that case. |
| `ChainIndexer.StepKeepsInv` | core/chain_indexer.go:191-335 | Every locked region, every header read and every restart keeps the invariant. |
| `ChainIndexer.RunKeepsInv` | core/chain_indexer.go:191-335 | In every interleaving, restarts included, section heads are stored exactly below `storedSections`, each reached from the one before by a linked run of exactly `sectionSize` headers, section 0 from the empty hash. |
| `ChainIndexer.OneChain` | core/chain_indexer.go:247-291 | So the stored sections are cut from one chain, numbered from 0 without gaps, with the heads at its multiples of the section size. |
| `ChainIndexer.RestartCount` | core/chain_indexer.go:362-382 | A restart at any time finds the sections there are heads for and is a step like others; children are never told of more than are stored. |
| `ChainIndexer.OnlyConfirmed` | core/chain_indexer.go:217-229 | No section is processed or stored before the announced heads are the required number of confirmations past its last block. |
| `ChainIndexer.ReorgExactly` | core/chain_indexer.go:196-216 | In every reachable state: after a reorganisation at a block exactly the sections whose blocks are all below it are left, with the heads they had, no more are known, and children are told of no more. |
| `ChainIndexer.NoneStale` | core/chain_indexer.go:196-216 | Over every run: no stored section has a block at or above one notified as reorganised, unless it has been stored since. |
| `ChainIndexer.KnownExactly` | core/chain_indexer.go:217-229 | After a new head exactly those sections are known that were, or are complete and confirmed at it. |
| `ChainIndexer.NoRetry` | core/chain_indexer.go:273-291 | A section is stored as the next one, with children told up to its end, or nothing is pending any more. |
| `ChainIndexer.StoredExactly` | core/chain_indexer.go:248-291 | From the start of a section to its end, whatever is notified and read in between: it is stored if and only if the headers read are all there and linked to the section before, and no notified reorganisation reached below the section. |
| `ChainIndexer.NextExactly` | core/chain_indexer.go:248-275 | The same up to the final comparison. |
| `ChainIndexer.ReadsDecide` | core/chain_indexer.go:316-329 | Reading goes on exactly as long as the headers are there and linked, whatever is notified meanwhile. |
| `ChainIndexer.StillNext` | core/chain_indexer.go:196-216 | A section being read is still the next one exactly if no reorganisation reached below it. |
| `ChainIndexer.StoredIfNext` | core/chain_indexer.go:273-276 | The comparison of the predecessor's head stores the section exactly if it is the next one. |
| `ChainIndexer.ReorgUnnoticedExample` | core/chain_indexer.go:273-290 | A run in which a replaced block ends up as a stored section head. |
| `ChainIndexer.StoreIsNext` | core/chain_indexer.go:273-275 | The comparison of the predecessor's head implies that the section is the next one. |
| `ChainIndexer.ProcessSection` | core/chain_indexer.go:310-335 | Succeeds exactly on a complete and linked section whose commit works, with the hash of its last header. |
| `ChainIndexer.Indexer.constructor` | core/chain_indexer.go:84-101 | An empty index. |
| `ChainIndexer.Indexer.SetValidSections` | core/chain_indexer.go:370-382 | Exactly the heads of sections no longer valid are deleted. |
| `ChainIndexer.Indexer.Load` | core/chain_indexer.go:362-367 | Is the machine's restart, and keeps the invariant. |
| `ChainIndexer.Indexer.NewHead` | core/chain_indexer.go:191-230 | Is the machine's step, and keeps the invariant. |
| `ChainIndexer.Indexer.Rewind` | core/chain_indexer.go:196-216 | The branch for a reorganisation, in place. |
| `ChainIndexer.Indexer.BeginSection` | core/chain_indexer.go:248-265 | Is the machine's step, and keeps the invariant. |
| `ChainIndexer.Indexer.ReadHeader` | core/chain_indexer.go:316-329 | Is the machine's step, and keeps the invariant. |
| `ChainIndexer.Indexer.FinishSection` | core/chain_indexer.go:270-291 | Is the machine's step, and keeps the invariant. |
| `DerivationPath.RoundTrip` | accounts/hd.go:67-135 | Parsing a printed path gives the path back, hardened components included, for every list of 32-bit components but the empty one, which is rejected. |
| `DerivationPath.PrintInjective` | accounts/hd.go:121-135 | Different paths print differently. |
| `DerivationPath.ParsePrintParse` | accounts/hd.go:67-135 | Printing what was parsed and parsing that changes nothing. |
| `DerivationPath.ErrorsExactly` | accounts/hd.go:71-89 | A path is ambiguous exactly if only white space precedes its first slash or its end, and empty exactly if it is the letter m, white space aside. |
| `DerivationPath.RelativeIsAppended` | accounts/hd.go:82-84 | A relative path means the same as the absolute one behind the default root. |
| `DerivationPath.ParseBehind` | accounts/hd.go:79-117 | Text behind a printed path adds its components to the path. |
| `DerivationPath.ComponentRoundTrip` | accounts/hd.go:89-115 | A printed component parses back. |
| `DerivationPath.ComponentRange` | accounts/hd.go:104-111 | A number is accepted up to 2^32 - 1, hardened up to 2^31 - 1, and out of range beyond. |
| `DerivationPath.NegativeRejected` | accounts/hd.go:105-110 | Negative numbers are out of range. |
| `DerivationPath.SetStringDecimal` | accounts/hd.go:100-100 | What is printed is read back, whatever other bases are admitted. |
| `DerivationPath.SetStringPlain` | accounts/hd.go:100-100 | Text without a leading zero is a number exactly if it is decimal digits with single separators between them. |
| `DerivationPath.ScanExactly` | accounts/hd.go:100-100 | Reading from the front succeeds exactly on numerals of the base, with the positional value of their digits. |
| `DerivationPath.SetStringPrefixed` | accounts/hd.go:100-100 | The prefixes 0x, 0o and 0b, of either case, choose bases 16, 8 and 2, and what follows must be a numeral of that base. |
| `DerivationPath.SetStringOctal` | accounts/hd.go:100-100 | A leading zero alone means octal, and what follows must be an octal numeral. |
| `DerivationPath.SetStringSigned` | accounts/hd.go:100-100 | A minus sign negates, a plus sign does nothing. |
| `DerivationPath.SplitPrint` | accounts/hd.go:71-71 | Splitting a printed path gives back its pieces. |
| `DerivationPath.WhitespaceIgnored` | accounts/hd.go:91-97 | White space around a component, and before its closing quote, changes nothing, whatever the component is. |
| `DerivationPath.WhitespaceExactly` | accounts/hd.go:91-103 | For every component: white space left after trimming, dropping the quote and trimming again makes it invalid; otherwise it parses like the text without any white space. |
| `DerivationPath.PathWhitespaceExactly` | accounts/hd.go:67-117 | A path parses if and only if it does without its white space and none of its numbers holds any; then the two parse alike, and they do whenever no number holds any. |
| `DerivationPath.SetStringSpace` | accounts/hd.go:100-103 | No text that holds white space is a number, in any base. |
| `DerivationPath.SplitStripped` | accounts/hd.go:71-71 | Removing white space does not change how a path is split. |
| `DerivationPath.InnerWhitespaceExample` | accounts/hd.go:100-103 | Two digits with a space between them. |
| `DerivationPath.ParseDerivationPath` | accounts/hd.go:67-117 | The code's loop computes the parse that these laws are about, the first error winning. |
| `DerivationPath.ParseOne` | accounts/hd.go:90-111 | One component, with its error cases. |
| `DerivationPath.String` | accounts/hd.go:121-135 | The code's loop computes the notation that these laws are about. |

## Left out

- BmtHasher.HasherAgreesWithReference: the length prefix of `ResetWithLength`, `ReadFrom` and the tree pool's own locking are not modelled.
- BmtMachine: what a goroutine reads of a node when toggling or combining is read in one step, which makes no difference by `BmtTheorems.RunUndisturbed`; marking a node in `finalise` is one step, although it writes three fields, of which a goroutine at that node reads only the one that does not change. The memory model of the language is not modelled.
- HeaderChain: header validation, write errors, `Rollback` and fast-sync heads; the first part of `ValidateHeaderChain` is the precondition of `InsertHeaderChain`.
- HeaderChain.HeaderChain.SetHead: that the head is heaviest afterwards is not claimed, and is not so in general.
- BlockChain.BlockChain.WriteBlockAndState: that a block's number is one above that of its parent is a precondition, as is that a transaction occurs at most once along a chain; the callers' header and state checks ensure both.
- BlockChain.BlockChain.GetTransaction: the fallback to the older storage format for a transaction without a lookup entry.
- BlockChain: receipts, preimages, state, events and future blocks, and writing the heads to the database.
- TxPoolReset.Reset: resetting the pool's state and nonces around the branch walk.
- PendingEviction.Pool.Equalise: the account nonces, the price heap and the metrics that the loops also update.
- Heap: the library's `Less` and `Swap` through an interface; slices are sequences, so their capacity and aliasing are not modelled.
- TxSortedMap.SortedMap.Cap: a negative limit, on which the code panics, is not modelled.
- TxList: `mu`, the lock shared by all lists.
- TxPricedList.PricedList.Put: that equal hashes mean equal transactions is a precondition; that `stales` counts the stale entries is not claimed, as the pool does not keep it exact.
- StateTransition: prices of gas are parameters, since the package that defines them is not part of this model; contract addresses, logs and state roots; that big integers returned by the state may be aliased and overwritten by the refund computation.
- StateProcessor.Process: `Finalize` of the consensus engine and `Finalise` of the state database, which are not part of this model; logs and blooms.
- Feed: the dynamic type checks and their panics, and the field of each case that holds the value during `Send`; one value is sent to all cases, none of which is added while it is being sent.
- ChainIndexer: throttling, closing, child indexers (their `newHead` calls are among the steps of any indexer), and numbers beyond 64 bits.
- DerivationPath: strings are sequences of characters; invalid UTF-8 is not modelled. The texts of error messages are reduced to their kind.
- The rest of the repository (distributed key generation, network protocol, RPC, console, node setup, consensus engines, the virtual machine, encodings and file formats) is not modelled.
