# A Dafny model of the Matrix node's core

This project models the parts of the Matrix node (a Go blockchain node) whose correctness is hardest to see by reading,
and proves what they keep over every input and every run. Code that changes state is modelled by classes and methods
with the same fields, loops and branches; each method is proved against a specification function or states its property
outright, and the properties of the specification are lemmas.

| part | modules |
|---|---|
| Copy-on-write B-tree with clones, a shared free list, range iteration, save and restore | `BTreeSpec`, `BTreeProofs`, `BTreeStore`, `BTreeRuns`, `BTreeForest`, `BTreeReads`, `BTreeIterate`, `BTreeRanges`, `BTreeSave`, `BTreeMedian`, `Listings` |
| Canonical chain by total difficulty and by the gamma rule | `Chain`, `HeaderChain`, `BlockChain` |
| Section indexer racing with reorganisations | `ChainIndexer`, `IndexerTears`, `IndexedChain` |
| Block verification process, validator and broadcast roles | `VerifyRequests`, `VerifyProcess` |
| Block generation process | `GenSteps`, `GenProofs`, `GenRuns`, `GenProcess` |
| Fees, Withdraw sub-accounts, revocable, timed and revert transactions | `Ledger`, `Gas`, `Records`, `TimeIndex`, `Reverts`, `RevertTimes`, `RevertIndex`, `RevertRuns`, `RevertLoss`, `Releases`, `StateTransition` |
| Nonce heap, cached sorted view, per-account lists | `NonceHeap`, `TxList` |
| Base58, CRC-8 and addresses | `Addresses`, `Digits`, `Base58`, `Crc8`, `ManAddress` |
| Broadcast transactions of a block | `BroadTx` |

How the pieces are built:

* The B-tree is a value (`Tree`), proved against sorted lists and maps; the same operations in place run on an arena of
  node records with owners and a free list (`Store`), and several trees share the arena (`Forest`). Ghost layouts (`Loc`)
  say which records a tree uses. Every operation may write only records its context owns or takes from the free list,
  and that is what keeps clones apart.
* The two chain classes share `Chain`: headers linked by parent hash, and what it means for the number index to be
  exactly one header's ancestor chain.
* The processes and the indexer are state machines. Every handler that runs under the lock is one step, except that
  the indexer's two loops, of which one runs without the lock, go access by access; the answers of
  engines and pools are an environment given to each step, and the theorems quantify over all event sequences.
  Ghost history (the events with the answers met, votes sent, hashes published, blocks given to the chain) states what
  happened, and the theorems trace every vote and every block given back to the answers of a step in that history.
* Records of revocable transactions live in a read cache and a trie, and in a B-tree by time; writes are deferred to the
  end of the block, deletions are not. The B-tree is the one of the first part, with degree 2.
* Balances are a map from coin, sub-account and address to integers, changed by lists of movements whose sums are proved.

Hashes are collision-free. Executing contracts, checking signatures and the consensus engines are functions supplied
from outside, with the contracts stated where they are used.

## Where the code does not do what one would expect

For each of these a lemma gives a concrete input, except where the line says otherwise, and another the exact condition.

* A found key keeps its entry and merges the values, but a key that is the median of a full child is replaced
  (`MedianReplaced`; exactly when: `PutContents`); the comment on `ReplaceOrInsert` promises replacement.
* A failed backend reset makes the worker cut the section index back without the lock, beside a notification that may do
  the same with it. Depending on where the two loops meet, the count falls to zero and then to 2^64-1 (`CountWraps`), a
  head stays above the count (`StaleHeadRun`), or a section without a head is counted again (`CountRaised`). Exactly
  when: `CleanUpExact`.
* A reorganisation from within the section that is being indexed goes unnoticed once the section has been read, and the
  head of a block that is no longer canonical is stored (`StaleHeadStored`; exactly when: `StaleIff`, `RunCanonical`).
* A block verified as a broadcast block can be given to the chain without a seal check after the broadcast interval
  changes (`UnsealedBlockGiven`; exactly when: `SealTestedIff`).
* Deleting a record does not clear the read cache, so a hash named again before the state is reloaded is repaid again
  (`PaidTwice`; exactly when: `RevertIff`, `StaleShows`).
* A record is written when its block ends, a deletion at once. A record made and reverted in one block therefore comes
  back and can be repaid in the next (`PaidAgain`; exactly when: `PayableAgain`, and over runs: `OnceIff`).
* A revert removes from the time index the last hash named, once per time, not each hash it reverts (`StaysIndexed`;
  exactly when it agrees: `RevertAgrees`, `RevertCleanly`). What stays there is also paid out to its recipients when its
  time comes, as far as the Withdraw account covers it (`ReleasedToo` and `LastReleasedIff`, for all such reverts).
* Committing the time index loses the records of a time that is a promoted median (`RecordLost`; exactly when:
  `CommitAgrees`).
* An overflow in the gas of an extra payload returns success with no gas used (the last clause of `CallRevocable`,
  `CallTime`, `CallRevert` and `CallNormal`, for all inputs). No caller can send such a payload: it would have to be
  longer than ten to the seventeenth bytes. So there is no concrete input for this one.
* The caps of an account's list are shared by all coins (`SharedCaps`; exactly when filtering is complete:
  `AccountTxs.Filter`). `txList.Add` always takes the transaction and reports no replaced one, whatever its comment says.
* `FindKey` goes one entry too far down when the key has the zero address (`ReturnsStranger`; exactly when it is right:
  `FindKey`).
* An address with nothing between its first two dots passes all tests and is then sliced to a negative length
  (`NothingBetweenDots`; exactly when: `ToAddress`).
* Restoring a tree does not restore its length (`LengthIsLost`, for all trees), and a tree type with no restoring branch
  comes back without entries (`HollowIs`, for all trees).

## Model

| member | source | states |
|---|---|---|
| BTreeProofs.InsertOk | btrie/btree.go:283-317 | Inserting below a node that is not full keeps all leaves at one depth and the occupancy bounds, and turns the in-order entries into sorted-list insertion: a found key keeps its entry, except at the median of a full child, where the entry is replaced; the old entry is what is returned. |
| BTreeProofs.RemoveOk | btrie/btree.go:368-414 | Removing a key, the least or the greatest item deletes exactly that entry from the in-order list, returns it, keeps one leaf depth and leaves the node at most one item shorter. |
| BTreeProofs.GrowKeeps | btrie/btree.go:435-470 | Stealing from the left, stealing from the right and merging leave the in-order entries as they were. |
| BTreeProofs.GrowFeeds | btrie/btree.go:435-470 | After one such step the child the removal goes on into, which may have moved, is above the minimum, so the mutual recursion descends. |
| BTreeProofs.SplitChildKeeps | btrie/btree.go:255-278 | Splitting a full child around its median leaves the in-order entries as they were. |
| BTreeProofs.RemoveFoundOk | btrie/btree.go:401-410 | A key found in an inner node is replaced by its in-order predecessor, and the entries are those of deleting it. |
| BTreeStore.Find | btrie/btree.go:152-160 | The index of the first item not below the key in a sorted node, and whether that item has the key. |
| BTreeStore.Store.NewNode | btrie/btree.go:741-745 | The node handed out is empty, owned by the asking context, and was either on the free list or never used. |
| BTreeStore.Store.FreeNode | btrie/btree.go:758-772 | Only a node owned by the context is emptied, and it joins the free list only while there is room. |
| BTreeStore.Store.MutableFor | btrie/btree.go:225-244 | The result is a node owned by the context with the same items and children; only nodes of that context and free nodes were written. |
| BTreeStore.Store.MutableChild | btrie/btree.go:246-250 | The same for a child, relinked under its parent. |
| BTreeStore.Store.SplitNode | btrie/btree.go:255-265 | A node and its new right sibling, disjoint and both owned, hold the two halves around the item returned. |
| BTreeStore.Store.MaybeSplitChild | btrie/btree.go:269-278 | Splits exactly when the child is full, and then in the arena as the tree function does. |
| BTreeStore.Store.Insert | btrie/btree.go:283-317 | The in-place insertion computes the tree-level insertion, writes only nodes it owns or took from the free list, and merges the value maps exactly when the key was found other than as a promoted median. |
| BTreeStore.Store.StealLeft | btrie/btree.go:436-445 | Moves the last item of the left sibling through the separator, with its child. |
| BTreeStore.Store.StealRight | btrie/btree.go:446-455 | Moves the first item of the right sibling through the separator, with its child. |
| BTreeStore.Store.MergeRight | btrie/btree.go:456-468 | Joins a child, the separator and its right sibling, and gives the sibling back to the free list. |
| BTreeStore.Store.GrowChildAndRemove | btrie/btree.go:435-470 | Feeds the child and removes: the tree-level removal, with only owned or free nodes written, and it terminates. |
| BTreeStore.Store.Remove | btrie/btree.go:368-414 | The in-place removal computes the tree-level removal, writes only owned or free nodes, and terminates together with the feeding step. |
| BTreeRuns.PutOk | btrie/btree.go:779-807 | Insertion into a whole tree, growing a new root when the old one is full, keeps balance, occupancy, order and the stored length. |
| BTreeRuns.DropOk | btrie/btree.go:827-842 | Deletion from a whole tree, dropping an emptied root, keeps them too; on an empty tree it does nothing. |
| BTreeRuns.PutIsMap | btrie/btree.go:779-807 | The tree refines a map: the key is bound afterwards, to the new value map unless it was there and merged; the old binding is returned. |
| BTreeRuns.DropIsMap | btrie/btree.go:811-842 | Delete, DeleteMin and DeleteMax take exactly the named, least or greatest key out of the map and return its binding. |
| BTreeRuns.GetIsMap | btrie/btree.go:320-328 | Looking a key up in the in-order list is looking it up in the map. |
| BTreeRuns.PutContents | btrie/btree.go:289-313 | The value map under the key afterwards: the old one with the new one merged in, or the new one alone when the key was absent or the promoted median. |
| BTreeMedian.MedianReplaced | btrie/btree.go:269-317 | In the tree of the keys 10 to 50 with degree 2 the key 40 is the median of a full child: inserting it again replaces its value map instead of merging. |
| BTreeMedian.Built | btrie/btree.go:779-807 | Inserting 10, 20, 30, 40 and 50 into an empty tree of degree 2 makes that tree. |
| BTreeRuns.Run | btrie/btree.go:717-842 | Every run of insertions, deletions and clones over any number of trees leaves every tree balanced, within occupancy bounds, strictly increasing, and with length equal to its number of keys. |
| BTreeForest.OtherUntouched | btrie/btree.go:225-250 | An operation of one context leaves every node of a tree that context owns nothing of as it was, and off the free list. |
| BTreeForest.StillSeparate | btrie/btree.go:225-250 | After an operation on one tree all trees are again linked, disjoint from the free list, and each writes only to nodes no other tree reaches. |
| BTreeForest.CloneSeparate | btrie/btree.go:717-728 | Cloning gives both trees new contexts, so neither owns any node they share. |
| BTreeForest.Forest.Clone | btrie/btree.go:717-728 | Adds a tree with the same structure, keys and length; nothing else changes. |
| BTreeForest.Forest.ReplaceOrInsert | btrie/btree.go:779-807 | Changes the named tree as the tree-level insertion does and no other tree, in structure or keys. |
| BTreeForest.Forest.DeleteItem | btrie/btree.go:827-842 | Changes the named tree as the tree-level deletion does and no other tree. |
| BTreeForest.Forest.Execute | btrie/btree.go:717-842 | Any sequence of operations on the shared arena computes, tree by tree, what the run over independent values computes. |
| BTreeReads.Get | btrie/btree.go:320-328 | The entry with that key, if there is one. |
| BTreeReads.Min | btrie/btree.go:331-342 | The first entry in order, or none for an empty tree. |
| BTreeReads.Max | btrie/btree.go:345-356 | The last entry in order, or none for an empty tree. |
| BTreeIterate.IterateUp | btrie/btree.go:490-516 | The recursive ascending walk shows its visitor what a plain scan of the in-order list from the start to the stop shows. |
| BTreeIterate.IterateDown | btrie/btree.go:517-551 | The descending walk, with its handling of an included start, shows what a plain scan of the reversed list shows. |
| BTreeRanges.ScanShows | btrie/btree.go:486-552 | A scan shows a prefix of the wanted items in order; it is cut short only right after the visitor first answers false. |
| BTreeRanges.AscendRange | btrie/btree.go:846-851 | Visits exactly the keys from the first bound up to but not including the second, in order, until the visitor stops. |
| BTreeRanges.AscendLessThan | btrie/btree.go:855-860 | Visits exactly the keys below the pivot, in order, until the visitor stops. |
| BTreeRanges.AscendGreaterOrEqual | btrie/btree.go:864-869 | Visits exactly the keys from the pivot on, in order, until the visitor stops. |
| BTreeRanges.Ascend | btrie/btree.go:873-878 | Visits all keys in order, until the visitor stops. |
| BTreeRanges.DescendRange | btrie/btree.go:882-887 | Visits exactly the keys from the first bound down to but not including the second, until the visitor stops. |
| BTreeRanges.DescendLessOrEqual | btrie/btree.go:891-896 | Visits exactly the keys at most the pivot, downwards, until the visitor stops. |
| BTreeRanges.DescendGreaterThan | btrie/btree.go:900-905 | Visits exactly the keys above the pivot, downwards, until the visitor stops. |
| BTreeRanges.Descend | btrie/btree.go:909-914 | Visits all keys downwards, until the visitor stops. |
| BTreeSave.OneCanonical | btrie/btree.go:583-594 | A value map has one saved form, whatever order its keys are iterated in. |
| BTreeSave.SaveMaps | btrie/btree.go:583-594 | Iterating the map in any order, sorting and emitting gives that form. |
| BTreeSave.Save | btrie/btree.go:573-629 | The hash returned is a function of the tree's shape, keys and value maps alone; every node is stored under its hash and nothing stored before is lost. |
| BTreeSave.HashInjective | btrie/btree.go:573-629 | Two trees saved as transaction trees have the same hash exactly when shape, keys and value maps agree. |
| BTreeSave.RoundTrip | btrie/btree.go:573-671 | What restoring reads back under the hash of a saved tree is that tree; for a tree type with no restoring branch it is the shape with its entries emptied. |
| BTreeSave.HollowIs | btrie/btree.go:631-671 | With such a type the tree comes back unchanged exactly when it held no entries. |
| BTreeSave.RestoreTree | btrie/btree.go:631-671 | Rebuilds in the arena the tree read back, on nodes of its own; the zero hash restores nothing; the length is left as it was. |
| BTreeSave.SaveThenRestore | btrie/btree.go:573-671 | Saving a tree and restoring from the hash returned gives a tree of the same shape, keys and value maps on nodes of its own; for a type with no restoring branch, the bare shape. |
| BTreeSave.LengthIsLost | btrie/btree.go:631-671 | The restored tree is well formed, and its length is right exactly when it happened to equal the length saved. |
| HeaderChain.HeaderChain.WriteHeader | core/headerchain.go:132-193 | Every header written keeps: each total difficulty is the sum along the ancestors, the current header has the greatest one, and the number index is exactly its ancestor chain with nothing above. The header wins iff heavier, or as heavy and the coin falls for it; an unknown parent changes nothing. |
| HeaderChain.HeaderChain.DeleteAbove | core/headerchain.go:156-163 | Removes the assignments above the new head, and only those. |
| HeaderChain.HeaderChain.OverwriteStale | core/headerchain.go:164-176 | The walk down the new chain ends at the fork and leaves the index following the new header. |
| HeaderChain.RerouteDone | core/headerchain.go:164-178 | Once the walk meets an assignment that agrees, the whole index below agrees. |
| HeaderChain.HeaderChain.InsertHeaderChain | core/headerchain.go:274-300 | A contiguous batch is stored whole iff its first header or that header's parent is known; else nothing changes. |
| HeaderChain.HeaderChain.GetAncestorHash | core/headerchain.go:510-534 | The ancestor at that number, found iff the son is known and not below it. |
| HeaderChain.HeaderChain.SetHead | core/headerchain.go:421-454 | The head becomes its ancestor at the given number, exactly the headers between are dropped, and the index is that ancestor's chain. |
| HeaderChain.HeaderChain.SetSBlkHead | core/headerchain.go:458-491 | The same rewind of headers, with the index cut only from the given height up to the old head's. |
| HeaderChain.RewindLinked | core/headerchain.go:421-491 | What a rewind leaves is linked exactly when no remaining header hangs on a dropped one. |
| BlockChain.BlockChain.WriteBlockWithState | core/blockchain.go:1044-1227 | Every block written keeps: the head is lexicographically greatest in (super sequence, number, time) among all blocks written, and the number index is exactly its ancestor chain. A new block wins iff it beats the head; a known block, an unknown parent or a number that does not follow it changes nothing. |
| BlockChain.BlockChain.IsGammaCanonicalChain | core/blockchain.go:1229-1262 | True exactly for the lexicographically greater triple. |
| BlockChain.NormalWinnerIsHigh | core/blockchain.go:1229-1262 | A block that is not a super block and beats a greatest head is not lower than it: the fact that makes the index update sound. |
| BlockChain.BestMore | core/blockchain.go:1181-1223 | Taking the new block iff it beats the head keeps the head greatest. |
| BlockChain.BlockChain.Adopt | core/blockchain.go:1199-1223 | After reorganisation and insertion the index holds the new chain up to the new head, and nothing above iff the block is a super block or not lower than the old head. |
| BlockChain.BlockChain.FindFork | core/blockchain.go:1675-1715 | The common ancestor is the last block the two chains share, and the new segment is exactly the blocks from there to the new head. |
| BlockChain.BlockChain.Reorg | core/blockchain.go:1636-1738 | The index below the new head becomes its ancestor chain; above it nothing is touched yet. |
| BlockChain.BlockChain.Insert | core/blockchain.go:559-582 | Sets the head, assigns its number, and cuts the index above only for a super block at or below the old head; the header chain's head follows when the block was not indexed. |
| BlockChain.BlockChain.SuperBlkRewind | core/blockchain.go:1264-1277 | A super block at or below the old head removes the assignments from above it to the old head and no header. |
| ChainIndexer.StepKeeps | core/chain_indexer.go:210-359 | Every step of worker or notification, each access of their two cutting loops being one, keeps the invariant iff it does not take the count from under the other loop: heads are stored exactly below the count but for those about to be removed, each reached from the one before by one section of parent links, and what the loops have seen still holds. |
| ChainIndexer.RunKeeps | core/chain_indexer.go:210-359 | In every interleaving without such a step the invariant holds at every moment, the heads are exact at every moment, and the count rises only when a section is stored. |
| ChainIndexer.CleanUpExact | core/chain_indexer.go:330-338 | Over every run that does not stop inside a loop the heads are exact at every moment and the count rises only when a section is stored, iff no decrement takes the count from under the other loop. |
| ChainIndexer.TornShows | core/chain_indexer.go:330-338 | Such a decrement leaves a head above the count that nobody will remove, or a loop that is going to raise the count. |
| ChainIndexer.DoomedStep | core/chain_indexer.go:394-406 | A loop whose test no longer holds, or which read the count before another decrement, or which has been passed, stays so until it raises the count. |
| ChainIndexer.CutAlone | core/chain_indexer.go:394-406 | A notification that nothing comes between removes exactly the heads from the changed section up to the count, sets the count, and ends. |
| ChainIndexer.CommitIff | core/chain_indexer.go:290-310 | A finished section passes the head comparison exactly when the stored count still equals the section started; only then does the count rise. |
| ChainIndexer.NoResetFailureNoTear | core/chain_indexer.go:330-359 | Without a failed reset of the backend no interleaving tears anything. |
| IndexerTears.CountWraps | core/chain_indexer.go:330-406 | A run: the worker finds two sections, a notification removes both, and the worker decrements zero; the count is 2^64-1 with no head stored and the lock free. |
| IndexerTears.StaleHeadRun | core/chain_indexer.go:330-406 | A run: the worker has lowered the count, a notification removes the section below, and the head the worker gave up stays above the count. |
| IndexerTears.CountRaised | core/chain_indexer.go:394-406 | A run: a notification has left its loop, the worker removes the last section, and the last write of the notification counts it again. |
| ChainIndexer.Indexer.SetValidSections | core/chain_indexer.go:394-406 | Sets the count and removes exactly the heads from the new count up to the old one. |
| ChainIndexer.Indexer.OnHead | core/chain_indexer.go:210-249 | A reorganisation lowers the known sections and, if the changed section is below the count, starts to cut the index back; a longer chain raises the known count by confirmed sections. |
| ChainIndexer.Indexer.ReadNext | core/chain_indexer.go:340-353 | Reads one header of the section; a missing hash, a missing header or a parent that is not the previous header fails the section. |
| ChainIndexer.Indexer.Conclude | core/chain_indexer.go:290-311 | Stores the new head and raises the count, or gives up the known sections. |
| ChainIndexer.Indexer.Execute | core/chain_indexer.go:210-359 | The steps on the fields compute the run, so every run without a tear keeps the invariant and the index exact at every moment. |
| IndexedChain.MoveKeeps | core/chain_indexer.go:210-359 | Beside a canonical chain that grows and is reorganised, every step keeps all stored heads canonical, except exactly the one that stores the head of a section whose last block is no longer canonical. |
| IndexedChain.RunCanonical | core/chain_indexer.go:210-359 | Over every run the stored heads are canonical at every moment iff no step stores such a head. |
| IndexedChain.StaleIff | core/chain_indexer.go:290-311 | A finished section is about to be stored with a head that is not canonical iff its last block was replaced after that block was read. |
| IndexedChain.StaleOnlyFromWithin | core/chain_indexer.go:210-225 | That needs a reorganisation whose common ancestor lies in the very section in work, after its last header was read: any other leaves the block alone or cuts the index back. |
| IndexedChain.StaleHeadStored | core/chain_indexer.go:210-311 | A run on one section of two blocks: the second block is replaced after the section was read, and the head of the old block is stored. |
| VerifyProcess.Process.Execute | blkverify/verify_process.go:133-605 | Over every event sequence: above Start there is a current request; a fetch result or timeout takes effect only on the request its sequence number was issued for, and only one of them; a process that was never a broadcast node sends votes only for the agreed leader's request of the agreed turn, made locally or such that parent, version and header were found good in one step of the run and its transactions in one; one that was only a broadcast node publishes no hash twice; no vote list has a zero account or two votes of one account. |
| VerifyProcess.Process.StartReqVerifyCommon | blkverify/verify_process.go:352-374 | Takes up a request iff started, agreed and the cache has one of the agreed leader and turn; otherwise changes nothing. |
| VerifyProcess.Process.ProcessReqOnce | blkverify/verify_process.go:376-423 | Goes on to transactions, or straight to a vote for a local request; never leaves the request. |
| VerifyProcess.Process.StartTxsVerify | blkverify/verify_process.go:425-447 | A validator waits for, or has verified, the transactions of the same request; a broadcast node ends its cycle with publications only. |
| VerifyProcess.Process.TxsAcquireTimeOut | blkverify/verify_process.go:465-484 | Takes effect iff the process waits for transactions under that very sequence number; else nothing changes. |
| VerifyProcess.Process.TxsAcquired | blkverify/verify_process.go:449-512 | The result of a fetch takes effect under the same condition; else nothing changes. |
| VerifyProcess.Process.VerifyTxsAndState | blkverify/verify_process.go:514-527 | A validator votes for the block iff transactions and state verified, and records the failure otherwise. |
| VerifyProcess.Process.NoteProof | blkverify/verify_process.go:514-527 | Transactions and state that verify complete the evidence by which the request may pass. |
| VerifyProcess.Process.SendVote | blkverify/verify_process.go:529-546 | Sends and counts one own vote, for the current request, iff it can be signed. |
| VerifyProcess.Process.StartDPOSVerify | blkverify/verify_process.go:561-605 | The local verdict is recorded, the vote sent and the block passed on as that verdict demands; at or past this state it is idle. |
| VerifyProcess.Process.ProcessDPOSOnceLocked | blkverify/verify_process.go:607-633 | Finishes the request iff it waits for consensus, has not finished, and the votes pass the consensus rule. |
| VerifyProcess.Process.FinishedProcess | blkverify/verify_process.go:635-664 | Ends the process unless the local verdict is missing or was a failure of the state. |
| VerifyProcess.Process.SetLeaderInfo | blkverify/verify_process.go:155-191 | Without consensus the process stops and forgets its request; with it the agreed leader and turn are those notified. |
| VerifyProcess.Process.StopProcess | blkverify/verify_process.go:193-206 | Back to Start without a request or a leader, or still idle. |
| VerifyProcess.Process.Close | blkverify/verify_process.go:147-153 | Idle, without a request. |
| VerifyProcess.Process.HandleVote | blkverify/verify_process.go:316-344 | Counts a vote iff it is checked, of a real account that has none yet, and for the current request; else nothing changes. |
| VerifyProcess.Process.AddReq | blkverify/verify_process.go:262-280 | A request the cache refuses changes nothing; any other keeps the invariant. |
| VerifyProcess.Process.CacheReq | blkverify/req_cache.go:141-195 | Stores the request iff it is admissible and its kind can be told, as Processing, or as recovered when it comes from the database. |
| VerifyProcess.Process.SetCurTurn | blkverify/req_cache.go:210-228 | A later turn drops exactly the requests of earlier turns; any other changes nothing. |
| VerifyProcess.Process.StartReqVerifyBC | blkverify/broadcast_process.go:12-45 | The broadcast cycle ends, the set of requests still Processing shrinking on every round, with publications only added. |
| VerifyProcess.Process.Examine | blkverify/broadcast_process.go:20-41 | A request is taken iff still Processing, not processed before and its block passes the consensus check; one that is not taken is no longer Processing. |
| VerifyProcess.Process.BcProcessReqVerify | blkverify/broadcast_process.go:47-61 | From a taken request the cycle goes on and ends. |
| VerifyProcess.Process.BcFinishedProcess | blkverify/broadcast_process.go:63-94 | A verified block is published once and recorded as processed; a failed one is marked and the cycle goes on. |
| VerifyRequests.AddVote | blkverify/req_cache.go:100-112 | Adds the vote iff its account is real and has none, and keeps the list free of repeats. |
| VerifyRequests.AddVotes | blkverify/verify_process.go:587-601 | All early votes are tried; the list stays free of repeats and every real account among them has a vote. |
| VerifyRequests.TurnsOrdered | mc/funcdef.go:262-278 | The comparison of consensus turns is a strict total order. |
| VerifyRequests.SortCache | blkverify/req_cache.go:310-338 | The same requests, better kinds first and later times first within a kind. |
| VerifyRequests.GetLeaderReq | blkverify/req_cache.go:266-286 | A request of that leader and turn, found iff the leader is real and there is one; from an ordered cache a local one if there is any. |
| VerifyRequests.GetReqByHash | blkverify/req_cache.go:288-302 | A request with that hash, found iff the hash is not zero and there is one. |
| VerifyRequests.DropEarlier | blkverify/req_cache.go:218-227 | Exactly the requests that are not of an earlier turn, still distinct and in order. |
| VerifyRequests.CheckAdmissible | blkverify/req_cache.go:146-172 | Refused exactly for a zero sender, an earlier turn, a known request of the same sender, leader and turn, or a sender at its limit. |
| GenProofs.StepChecked | blkgenor/process.go:98-329 | Every step makes a block ready only if the block passes the consensus check at that step and also the seal check, or the run of its transactions where the step takes the height for a broadcast height; it gives only a ready block, or a block others inserted that has the hash of a ready one and passes the checks for its kind of height; no ready entry is taken back; the interval in force is the one foretold. |
| GenProofs.CommonOk | blkgenor/process_block.go:211-262 | A mining result makes a block ready only with the consensus check and the seal check of the completed header. |
| GenProofs.BroadcastOk | blkgenor/process_broadcast.go:52-85 | A broadcast result makes a block ready only with the consensus check and the run of its transactions. |
| GenProofs.FullOk | blkgenor/process_block.go:103-159 | A full block becomes ready only with the consensus check and, unless its number is a broadcast number, the seal check. |
| GenProofs.OtherOk | blkgenor/process.go:181-250 | A block that others inserted is given only if a ready block has its unsigned hash, and it passes consensus and seal checks or, at a broadcast height, is signed by its leader, a broadcast node. |
| GenProofs.GiveIs | blkgenor/process_block.go:369-416 | At most one block is given: the ready one, or the one of the message if a ready one has its unsigned hash. |
| GenProofs.Unsealed | blkgenor/process.go:98-329 | A step that takes the height for a broadcast height does the same whatever seals pass. |
| GenProofs.SealDecides | blkgenor/process_block.go:193-262 | A block made ready would have become so with its seal refused iff the step takes the height for a broadcast height; otherwise its seal passed. |
| GenProofs.InsertSealDecides | blkgenor/process.go:181-250 | The same for a block that others inserted. |
| GenRuns.ReadyChecked | blkgenor/process.go:98-329 | In every run a ready block goes back to one step that made it ready, whose checks it passed, and has stayed ready since. |
| GenRuns.EveryGivenChecked | blkgenor/process.go:98-329 | In every run a block given to the chain goes back to the step that made it ready and whose checks it passed, or to the notice by which it was vouched for together with a ready block of the same hash that had passed. |
| GenRuns.RunGrows | blkgenor/process.go:98-329 | Over a run no entry is dropped, no ready entry is taken back and nothing given is lost. |
| GenRuns.SealTestedIff | blkgenor/process.go:98-329 | The seal of a block given to the chain was tested iff the step that decided on it did not take the height for a broadcast height. |
| GenRuns.AllTestedIff | blkgenor/process.go:98-329 | All blocks given had their seals tested iff none was decided on at such a step. |
| GenRuns.UnsealedBlockGiven | blkgenor/process.go:98-172 | A run of four events in which the interval changes after a broadcast result was taken: a block is given at a height that is no broadcast height by the interval in force, and no seal ever passed. |
| GenProcess.Process.GetLastBlockData | blkgenor/blockCache.go:54-65 | The entry with the latest time above zero among those met, the first met on a tie; none iff no time is above zero. |
| GenProcess.Process.PickSatisfyMinerResults | blkgenor/process_block.go:313-354 | The first result that may be picked and completes the header to one that passes the consensus and seal checks; none iff there is none. |
| GenProcess.Process.Perform | blkgenor/process.go:98-329 | Each handler makes ready and gives only what passes the checks of its own step, and extends the history of which the fields are the outcome. |
| GenProcess.Process.Execute | blkgenor/process.go:98-329 | After any event sequence the fields are what the history makes of a new process, and every ready and every given block goes back to checks it passed in that history. |
| Gas.IntrinsicGas | core/state_transition.go:47-73 | The base cost and the cost of each zero and non-zero byte, or nothing when it does not fit 64 bits. |
| Gas.ChargeFor | core/state_transition.go:280-298 | The cost of payload and extra payloads; refused when the payload overflows or there are too many; an overflow in an extra payload is told apart. |
| Gas.GasPool.AddGas | core/gaspool.go:17-23 | Adds iff the sum fits 64 bits; where it does not the program panics. |
| Gas.GasPool.SubGas | core/gaspool.go:27-33 | Subtracts iff there is enough, else changes nothing. |
| Gas.ChargesHalf | core/state_transition.go:1366-1382 | After the refund at least half of the gas used is charged. |
| Gas.FeeConserves | core/state_transition.go:173-196 | Buying, refunding and paying the fee sum to zero in the coin iff the fee is settled in it, or no gas was bought. |
| Ledger.ApplyTotal | core/state_transition.go:306-318 | The total of a coin over all addresses and sub-accounts changes by exactly the sum of the movements in it. |
| TimeIndex.EnterContents | core/state/statedb.go:680-707 | Entering hashes under a time in the B-tree adds them to those held for that time, or replaces them where the time is the median of a full child; no other time changes. |
| TimeIndex.EraseContents | core/state/statedb.go:588-613 | Deleting a time takes out exactly that time. |
| Reverts.CreateKeeps | core/state_transition.go:669-709 | A revocable or timed record under a new hash keeps the invariant of the store: the trie holds exactly the revocable records of earlier blocks that were not reverted after the block that made them, everything read back is the record made, and only revocable records were reverted, by their creators in their coins. |
| Reverts.EndKeeps | core/state/statedb.go:1139-1173 | So does the end of a block, where what was written goes to the trie and the queue to the indexes. |
| Reverts.PayableLater | core/state/statedb.go:914-945 | At a block boundary a reverted record can be given back again iff it was reverted in no block but the one that made it. |
| Reverts.AnswersStay | core/state/statedb.go:914-945 | Reading a record back gives the same answer throughout a revert, deleted or not. |
| Reverts.RevertGap | core/state_transition.go:401-448 | The Withdraw balance falls short of the live records by exactly the sum of the stale repayments. |
| Reverts.RevertIff | core/state_transition.go:401-448 | After a revert every Withdraw balance is again the sum of its live records iff the stale repayments sum to nothing. |
| Reverts.StaleShows | core/state_transition.go:401-448 | With no empty record, that is iff each hash taken is live and named once. |
| Reverts.RevertOnce | core/state_transition.go:401-448 | Each record is still reverted at most once iff each hash taken is live and named once. |
| Reverts.FreshAfterBlock | core/state_transition.go:401-448 | With the read cache empty, that is iff no effective hash is named twice and none was made and reverted in one block before. |
| RevertTimes.PayableAgain | core/state/statedb.go:914-945 | At any moment a reverted record can be given back again iff it was reverted in this block, or in no block but the one that made it; equally, iff it is in the read cache or was reverted in no other block. |
| Reverts.RunKeeps | core/state_transition.go:263-450 | Over every run of revocable, timed and revert transactions, ordinary movements and block ends the store is exact, and every Withdraw balance is the sum of its live records less the stale repayments of the run. |
| RevertTimes.OnceIff | core/state_transition.go:263-450 | Over every run each record is given back at most once iff no revert names a record of its sender that was reverted in that block or in no block but the one that made it, nor one twice that can still be given back. |
| Reverts.FreshRuns | core/state_transition.go:263-450 | In such a run every Withdraw balance is the sum of its live records. |
| RevertIndex.CreateAgrees | core/state/statedb.go:658-679 | A new record keeps the time index, with its queue, exact: it holds the live revocable records, each under its time. |
| RevertIndex.CommitAgrees | core/state/statedb.go:680-707 | Committing the queue keeps it exact iff no queued time meets a promoted median when its turn comes. |
| RevertIndex.EndAgrees | core/state/statedb.go:1139-1173 | So does the end of a block, under the same condition. |
| RevertIndex.RevertAgrees | core/state_transition.go:435-448 | A fresh revert keeps it exact iff the only effective hash is the last one named and it has reached the index. |
| RevertIndex.RevertCleanly | core/state_transition.go:435-448 | A fresh revert of the one record named last that has reached the index keeps the index exact iff its own commit meets no promoted median. |
| RevertIndex.RunAgrees | core/state_transition.go:263-450 | Every run of such steps keeps it exact. |
| RevertRuns.PaidTwice | core/state_transition.go:401-448 | A revert naming one hash twice repays it twice and leaves the Withdraw balance below the live records. |
| RevertRuns.PaidAgain | core/state/statedb.go:1139-1173 | A record made and reverted in one block is written when the block ends, can be given back once more in the next, and is in the time index although it is not live. |
| RevertRuns.StaysIndexed | core/state_transition.go:435-448 | A revert of two hashes leaves the first in the index. |
| RevertLoss.RecordLost | core/state/statedb.go:680-707 | Five times, and a record waiting for the fourth: index and queue are exact, and committing the queue loses the record held for that time. |
| Releases.ReleasedIff | core/state/sharding_statedb.go:894-940 | A release pays out a hash iff the index holds it for a time that has come, and leaves in the index what is held for later times. |
| Releases.ReleaseExact | core/state/sharding_statedb.go:894-940 | With an exact index and covered records a release pays exactly the live revocable records whose time has come, each in full, and leaves an exact index and covered records. |
| Releases.ReleaseConserves | core/state/sharding_statedb.go:894-940 | A release makes and loses no coin. |
| Releases.ReleasedToo | core/state/sharding_statedb.go:894-940 | Of the records that one fresh revert gives back, every one but the last named is also released when its time comes. |
| Releases.LastReleasedIff | core/state/sharding_statedb.go:894-940 | The last named, if it is the only one, is also released iff it had not reached the index when it was reverted. |
| StateTransition.State.CommitSaveTx | core/state/statedb.go:680-707 | The loop over the queue is the flush of each index in turn. |
| StateTransition.State.GetSaveTx | core/state/statedb.go:588-656 | Taking hashes out of a time: the time is erased, its rest queued again, and the queue committed; a time not in the index changes nothing. |
| StateTransition.State.GetMatrixData | core/state/statedb.go:918-939 | The record cached, or else the one in the trie, which is then cached. |
| StateTransition.State.FinishBlock | core/state/statedb.go:1139-1173 | The loop over the entries written and the commit are the end of a block. |
| StateTransition.State.UpdateTxForBtree | core/state/sharding_statedb.go:894-940 | The loops over times, hashes and recipients are the release of all times that have come, the latest first and each whole. |
| StateTransition.Transition.BuyGas | core/state_transition.go:173-196 | Succeeds iff sender and payer can pay and the pool has the gas, and then takes exactly that from pool and payer. |
| StateTransition.Transition.PreCheck | core/state_transition.go:198-211 | Succeeds only with the right nonce and the gas bought. |
| StateTransition.Transition.Settle | core/state_transition.go:1366-1387 | The pool gets back exactly the gas not charged; payer and fee account get their shares. |
| StateTransition.Transition.CallRevocable | core/state_transition.go:628-714 | On success the state is that of buying, recording and settling, and the pool is lower by exactly the gas reported. |
| StateTransition.Transition.CallTime | core/state_transition.go:263-346 | The same with a timed record. |
| StateTransition.Transition.CallRevert | core/state_transition.go:347-450 | The same with the reverts of all hashes named, the times met being taken out of the index in some order; a payload overflow ends it early with zero gas reported. |
| StateTransition.Transition.CallNormal | core/state_transition.go:851-930 | The same around a conserving execution: the pool is lower by exactly the gas reported, which is half the gas consumed or more. |
| StateTransition.TransfersConserve | core/state_transition.go:263-450 | Revocable, timed and revert transitions each conserve the coin's total over all addresses and sub-accounts iff the fee is settled in the coin, or no gas was bought. |
| StateTransition.NormalConserves | core/state_transition.go:851-930 | So does a normal transition, given a conserving execution. |
| NonceHeap.TopIsLeast | core/tx_list.go:19-35 | The first nonce of a heap is the least. |
| NonceHeap.Push | core/tx_list.go:25-27 | A heap with the nonce added. |
| NonceHeap.Pop | core/tx_list.go:29-35 | The least nonce, and a heap of the others. |
| NonceHeap.RemoveAt | core/tx_list.go:140-157 | A heap without that position's nonce. |
| NonceHeap.Init | core/tx_list.go:101-108 | A heap of the same nonces, from any order. |
| TxList.TxSortedMap.Put | core/tx_list.go:61-67 | Binds the nonce, and keeps: the heap holds exactly the keys in heap order, and any cache is the nonce-sorted contents. |
| TxList.TxSortedMap.Forward | core/tx_list.go:72-86 | Removes exactly the nonces below the threshold and returns them sorted, keeping heap and cache. |
| TxList.TxSortedMap.Filter | core/tx_list.go:90-111 | Removes and returns exactly the transactions matched, keeping heap and cache. |
| TxList.TxSortedMap.Cap | core/tx_list.go:115-136 | Keeps the lowest nonces up to the limit and returns the others, highest first, keeping heap and cache; with a limit below zero everything is dropped and the loop then runs out of range. |
| TxList.TxSortedMap.Remove | core/tx_list.go:140-157 | Removes the nonce iff present, keeping heap and cache. |
| TxList.TxSortedMap.Flatten | core/tx_list.go:205-227 | The nonce-sorted contents, cached. |
| TxList.OneSorted | core/tx_list.go:205-227 | There is one nonce-sorted list of the contents. |
| TxList.AccountTxs.Add | core/tx_list.go:274-300 | Takes the transaction into its coin's map, raises the caps to cover it, and touches no other coin. |
| TxList.AccountTxs.Filter | core/tx_list.go:318-346 | On a list of one coin the result is that of filtering every transaction, caps or no caps; on any list it is so iff the short cut was not taken or no transaction of the coin is above the limits. |
| TxList.AccountTxs.Remove | core/tx_list.go:357-372 | Removes the nonce iff present, and on a strict list everything behind it, which is returned. |
| TxList.ShortCut | core/tx_list.go:320-322 | Under the caps there is nothing to filter. |
| TxList.LowestOver | core/tx_list.go:333-343 | The transactions behind the lowest one removed are exactly those with a removed one before them. |
| TxList.SharedCaps | core/tx_list.go:318-346 | On a list of two coins filtering one makes the same filtering of the other leave a transaction above the limits. |
| Base58.DecodeEncoded | base58/base58.go:63-138 | Decoding undoes encoding on every byte string. |
| Base58.EncodeDecoded | base58/base58.go:63-138 | Encoding undoes decoding on every string over the alphabet. |
| Base58.Decode | base58/base58.go:63-103 | The loop computes: leading zero bytes for leading ones, then the number in base 256; nothing for a string outside the alphabet. |
| Base58.Encode | base58/base58.go:106-138 | The loops and the reversal compute: leading ones for leading zero bytes, then the number in base 58. |
| Digits.OneNotation | base58/base58.go:63-138 | A number has one notation without leading zeros in any base. |
| Crc8.MakeTable | crc8/crc8.go:72-87 | Each entry is its index multiplied by x to the eighth modulo the polynomial. |
| Crc8.Update | crc8/crc8.go:95-104 | The table-driven update is the bit-serial shift register over all bits of the message, for every parameter set. |
| Crc8.Checksum | crc8/crc8.go:107-120 | The remainder of the message times x to the eighth plus the initial value times x to the length of the message, mirrored and masked as the parameters say. |
| Crc8.ReverseByte | crc8/crc8.go:47-55 | The mirror image of the byte. |
| Crc8.MirrorReverses | crc8/crc8.go:47-55 | Bit i of the mirror image is bit 7-i of the byte. |
| Crc8.ShiftedIsRemainder | crc8/crc8.go:72-104 | From a zero register the bit-serial form leaves the remainder of the message times x to the eighth by long division, for every polynomial and message. |
| Crc8.ShiftedIsRegister | crc8/crc8.go:95-120 | From any start value the register holds that sum of remainders. |
| Crc8.Division | crc8/crc8.go:72-104 | The remainder is one of a division: the message is a quotient times the divisor plus the remainder, coefficient by coefficient. |
| Crc8.CalCRC8 | crc8/crc8.go:122-125 | The check is the remainder of the bytes times x to the eighth by x^8 + x^2 + x + 1. |
| ManAddress.IsValidityManCurrency | common/types.go:681-696 | Three to eight bytes, all upper-case letters. |
| ManAddress.ToString | base58/base58.go:147-153 | Currency, dot, address in base 58, check character. |
| ManAddress.NothingBetweenDots | base58/base58.go:155-178 | A valid currency, two dots and the check character: accepted by every test, and then sliced to a negative length. |
| ManAddress.ToAddress | base58/base58.go:155-178 | Refused iff there is no dot, no valid currency or a wrong check character; sliced out of range iff nothing stands between the first two dots; else the decoded part, cut or padded to twenty bytes. |
| ManAddress.RoundTrip | base58/base58.go:147-178 | Every twenty-byte address written with any valid currency is accepted and read back. |
| ManAddress.Canonical | base58/base58.go:147-178 | An accepted string is the one its address is written as iff it has a single dot and its body decodes to twenty bytes. |
| BroadTx.OrderTotal | common/types.go:573-588 | The two comparisons are converse, and exactly one of less, equal and greater holds. |
| BroadTx.OrderTransitive | common/types.go:581-588 | Less is transitive. |
| BroadTx.Find | common/types.go:629-648 | Binary search agrees with looking at every entry: found iff present, and the index separates smaller keys from the others. |
| BroadTx.BroadTxSlice.Insert | common/types.go:592-600 | The slice stays strictly sorted and binds the key in the map it stands for; it grows by one entry iff the key was absent. |
| BroadTx.BroadTxSlice.InsertAt | common/types.go:651-657 | Appending and swapping down puts the entry at its index and shifts the others. |
| BroadTx.BroadTxSlice.FindValue | common/types.go:621-628 | The value the map binds, if any. |
| BroadTx.BroadTxSlice.FindKey | common/types.go:601-620 | Exactly the entries of the key iff none is under the zero address, or the entry before that one is under an address the key also has; with it the preceding entry is returned as well, and at the head of the slice the index is out of range. |
| BroadTx.ReturnsStranger | common/types.go:609-618 | Two entries for which the entry of another key is returned. |

## Left out

Deliberate limits of members above:

- BTreeForest.Forest.Execute: claims independence of clones for structure and keys; value maps are shared by reference between clones, as in the code, so a merge through one tree is seen through the other.
- BTreeSave.Save: hashes are the saved content itself, so collisions and the encoding of a node are not modelled; the sort by hexadecimal text is the numeric order of the hashes.
- HeaderChain.HeaderChain.WriteHeader: database writes succeed, and the header and difficulty caches are transparent.
- HeaderChain.HeaderChain.InsertHeaderChain: the interrupt, the statistics and the proof-of-work validation before it are not modelled.
- BlockChain.BlockChain.WriteBlockWithState: only head selection under the gamma rule; state, receipts, trie pruning and the older rule by total difficulty are not modelled. The super block sequence is read from the state after a block, so a block that is not a super block is offered with its parent's sequence.
- ChainIndexer.RunKeeps: one indexer without `AddKnownSectionHead` and without children; accesses without the lock are seen in one order by both threads, and the count kept in the database for a restart is not modelled.
- IndexedChain.RunCanonical: every reorganisation is notified at once; while a notification is on its way stored heads can be stale for that reason alone. Runs that tear the index are left to `ChainIndexer.CleanUpExact`.
- VerifyProcess.Process.Execute: the pool of early votes, signature checks and timers are answers of the environment.
- RevertIndex.RevertAgrees: for reverts of live hashes named once; a revert whose own commits meet a promoted median is covered by `RevertCleanly` if it gives one record back.
- Reverts.RunKeeps: runs without the release of due records; `Releases` says what one release does.
- RevertIndex.RunAgrees: one direction only; a later step may lose what an earlier one left behind.
- StateTransition.Transition.CallRevert: one state database; the split of accounts over several of them is not modelled, nor are copies of a state, which mark all records read as written.
- GenProcess.Process.Execute: mining results, timers and resending are events and answers of the environment.
- StateTransition.Transition.CallNormal: contract execution is any function that conserves every coin's total and does not add gas.

Not modelled at all:

- Contract execution, the state database and its tries, RLP and JSON, Keccak, signatures and the consensus engines: foreign engines, taken as functions.
- The release of due timed records: it is that of revocable records on the other index, without the deletion.
- Coin creation, reward, black-list and authorisation transactions: they mint, bypass gas or edit JSON lists, outside the conservation law.
- Transaction lookup entries and logs during a reorganisation, snapshots, pruning and caches.
- Child indexers after a restart, throttling and progress reports.
- Price-ordered transaction lists, the transaction pools and their gossip.
- Printing, clearing and length queries of the B-tree; its database field.
- Genesis and configuration, peer-to-peer messages, mining back ends, consoles and dashboards: plumbing without a hard invariant.
