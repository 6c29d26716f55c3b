# Chain maintenance, event feeds and fee accounting of go-ethereum, verified

A Dafny model of the state machines at the heart of a go-ethereum node, with proofs of what they
promise. `dafny verify dfyconfig.toml` checks everything.

What is modelled, one module per component:

- **Chain** — the block tree, ancestors, canonical indexes, fork points, transaction lookups, logs.
- **BlockChains** (with **LogStream**, **ForkChoice**) — `reorg`, `writeHeadBlock`,
  `writeBlockAndSetHead`, `SetCanonical`, `writeKnownBlock`: the canonical index, the transaction
  lookup and the log feeds of a full-sync node. Every run of head changes is proved to refine a
  summary that knows only the stored blocks and the head.
- **HeaderChains** (with **Rewinds**) — header imports with their caches and batches, the header
  reorganisation, `setHead` with the callbacks of `setHeadBeyondRoot`, and `GetAncestor`. Every run of
  imports and rewinds is proved to refine a summary of stored headers and head.
- **ChainIndexers** (with **SectionIndexes**, **RollBacks**) — the section indexer as lock-delimited
  steps, interleaved with any change of the canonical chain, with every single database write as a state
  of its own, and roll-backs split into single reads and writes where they may overlap.
- **Feeds** — the broadcast primitive over one aliased array, interleaved with subscriptions and
  cancellations.
- **Gas**, **Balances**, **StateTransitions**, **StateProcessors** — intrinsic gas, the purchase of
  gas, execution, refunds, tips, and the transaction loop of a block, down to 64-bit and 256-bit
  arithmetic.
- **TrieGCs**, **HashFns** — reference counting of in-memory tries, the memoised block hash lookup.
- **Formats**, **Derivations** (with **Decimals**) — numbers with thousands separators, wallet paths.

How things are represented:

- A block or header hash is represented by the block it is the hash of. This states that hashes are
  collision free and that stored headers were verified against their parents (number = parent
  number + 1). Whether a block is *stored* is separate: the databases are sets and maps.
- Heights, difficulties and section numbers are unbounded naturals. Where the source's width matters
  (gas, nonces, balances, formatted integers, path components) it is modelled.
- A database batch is a pending image of the map; reads go to the database until the batch is
  written. LRU caches may evict any other entry on every insertion.
- Callbacks and outcomes the code cannot decide (the coin and preserve callback of the fork choice,
  the result of backend calls, which channel is ready) are parameters or arbitrary choices.
- The EVM is a function parameter that, in worlds with a supply below 2^256 whose sender has no code and
  owns the value to transfer, returns gas not above its input, accounts for every unit of ether it moves
  or destroys, bumps a creator's nonce, and reports the accounts flagged for deletion.
- `big.Int.SetString` with base 0, `strings.Split` and `strings.TrimSpace` are modelled as their
  documentation describes them; they are not part of the repository.

Results that differ from what one might expect, each with an input and its exact condition:

- When the backend of a section cannot be reset, the indexer rolls back without its lock, and a locked
  roll-back may run beside it on the same counter and the same keys. All schedules of their single reads
  and writes keep every persisted state linked if and only if the locked one does not go to a count above
  the checkpointed base (`RollBacks.RaceExact`); with three stored sections and no checkpoint
  `RollBacks.OvertakenReset` leaves a count without a head, and `ChainIndexers.Overlap` reaches that
  situation. Whatever the count, some schedule makes the 64-bit counter wrap
  (`RollBacks.WrappingSchedule`), and then it is reported
  (`ChainIndexers.ChainIndexer.WrappedReport`); without an overlap it never wraps.
- A block producer that self-destructs during a transaction is paid the tip and then deleted with it
  (`StateProcessors.ProducerDeleted`). Besides fees and what the EVM destroys nothing is lost over a block
  if and only if each tip is zero or the producer is not deleted with it (`StateProcessors.BlockExact`).
- `writeKnownBlock` announces no logs for the block it installs (`BlockChains.MissedLog`). Over a run a
  listener stays exact if and only if it never installs a block with logs that was not canonical before
  (`BlockChains.BlockChain.Run`).
- Making a block the head that is canonical already announces its logs again (`BlockChains.LogTwice`);
  `BlockChains.NothingTwice` says exactly when this does not happen.
- A header rewind whose old head meets the target already deletes nothing, so headers of longer side
  forks stay above the head (`HeaderChains.LeftAbove`); `HeaderChains.HeaderChain.SetHead` states exactly
  when none is left.
- The rewind walk dereferences a missing block (`Rewinds.NilDereference`) exactly if a block has its
  state, the requested root is not seen yet and the parent is gone (`Rewinds.BlockStore.FindHead`); with
  complete bodies this cannot happen (`HeaderChains.ClosedWayDown`).
- The formatter's 26-byte buffer underflows exactly for a negative flag with 10^19 or more, which no
  int64 produces (`Formats.AppendUint64`, `Formats.AppendInt64`).
- The path parser's documentation allows relative paths and printing any path; the empty path prints
  as `m`, which the parser refuses (`Derivations.RoundTrip`).

## Model

| member | source | states |
|---|---|---|
| `BlockChains.BlockChain.Reorg` | src/go-ethereum/core/blockchain.go:2106-2274 | switching to a new head succeeds exactly if every block on the way to the fork point is stored; failure changes nothing; success leaves index, lookup and listener exactly at the new head's parent, or at the head itself if the old chain contains it, and sends the removed logs before the reborn ones, each in chain order |
| `BlockChains.BlockChain.CollectChains` | src/go-ethereum/core/blockchain.go:2106-2166 | the two walks fail exactly if the heads are not connected, and otherwise collect precisely the blocks above the fork point and the dropped transactions |
| `BlockChains.BlockChain.LowerOld` | src/go-ethereum/core/blockchain.go:2123-2130 | walking down a longer old chain collects its blocks and their transactions, and stops early exactly at a missing block |
| `BlockChains.BlockChain.LowerNew` | src/go-ethereum/core/blockchain.go:2131-2136 | walking down a longer new chain collects its blocks, and stops early exactly at a missing block |
| `BlockChains.BlockChain.MeetBoth` | src/go-ethereum/core/blockchain.go:2145-2166 | from equal heights both walks meet at the fork point; a missing parent means there is no connection |
| `BlockChains.BlockChain.InsertNewChain` | src/go-ethereum/core/blockchain.go:2197-2207 | all blocks of the new chain except its head enter the index and the lookup, lowest first |
| `BlockChains.BlockChain.DeleteUselessIndexes` | src/go-ethereum/core/blockchain.go:2209-2234 | every index entry above the last inserted block goes, and of the dropped transactions exactly those not added again |
| `BlockChains.BlockChain.SwitchIndexes` | src/go-ethereum/core/blockchain.go:2197-2234 | index and transaction lookup move from exactly the old chain to exactly the chain below the new head |
| `BlockChains.BlockChain.AnnounceRemoved` | src/go-ethereum/core/blockchain.go:2240-2257 | a listener loses exactly the logs of the dropped blocks, whatever the batching; they are sent lowest block first, in batches of more than 512 |
| `BlockChains.BlockChain.AnnounceReborn` | src/go-ethereum/core/blockchain.go:2259-2272 | a listener gains exactly the logs of the new chain below its head, whatever the batching; they are sent lowest block first |
| `BlockChains.BlockChain.AnnounceSwitch` | src/go-ethereum/core/blockchain.go:2236-2272 | a listener that held the logs of the old chain holds those of the chain below the new head |
| `LogStream.NextBatch` | src/go-ethereum/core/blockchain.go:2246-2257 | batches sent one after another add up to the logs in order, all but the last above 512 |
| `BlockChains.LogsUpAbove` | src/go-ethereum/core/blockchain.go:2242-2272 | walking the collected blocks from the end is walking the chain upwards from the fork point |
| `BlockChains.AnnouncedChains` | src/go-ethereum/core/blockchain.go:2236-2272 | what a reorg sends is the logs of the dropped blocks from the fork point up, then those of the new chain below its head, from the fork point up |
| `BlockChains.BlockChain.WriteHeadBlock` | src/go-ethereum/core/blockchain.go:926-947 | all six head markers, the index slot and the lookup entries are those of the block |
| `BlockChains.BlockChain.InstallHead` | src/go-ethereum/core/blockchain.go:1454-1468 | making a block the head leaves exactly its ancestors in the index and exactly their transactions in the lookup, wherever the block lies |
| `BlockChains.BlockChain.WriteBlockWithState` | src/go-ethereum/core/blockchain.go:1346-1379 | a block is refused exactly if its parent has no total difficulty; stored ones carry the sum of difficulties, also when committing the state fails afterwards |
| `BlockChains.BlockChain.WriteBlockAndSetHead` | src/go-ethereum/core/blockchain.go:1445-1488 | a canonical result comes exactly if the block was stored, committed and named by the fork choice, before as after the terminal difficulty; it leaves index, lookup and listener exactly at the block; any other result leaves them and the head alone |
| `BlockChains.BlockChain.AnnounceHead` | src/go-ethereum/core/blockchain.go:1471-1475 | the head's own logs complete what a listener holds, or come a second time if it held them before |
| `BlockChains.BlockChain.InstallAndAnnounce` | src/go-ethereum/core/blockchain.go:1454-1475 | the steps shared by import and SetCanonical: on success everything sent is what the reorg sends and then the logs of the head |
| `BlockChains.BlockChain.SetCanonical` | src/go-ethereum/core/blockchain.go:2294-2322 | making a block with a recoverable state canonical leaves index, lookup and listener exactly at it; otherwise nothing changes |
| `BlockChains.BlockChain.WriteKnownBlock` | src/go-ethereum/core/blockchain.go:1333-1342 | the indexes are exact, and a listener misses exactly the logs of a head that was not canonical before |
| `BlockChains.BlockChain.Apply` | src/go-ethereum/core/blockchain.go:1333-1488 | one head change does to the stored blocks, the head, the repeated and the missed logs what its abstract step says, for a listener too |
| `BlockChains.BlockChain.Run` | src/go-ethereum/core/blockchain.go:1333-1488 | after any run of head changes both indexes are exactly those of the head the abstract run ends in, and a listener holds exactly that chain's logs plus those announced twice if and only if no operation made it miss logs |
| `BlockChains.NothingMissed` | src/go-ethereum/core/blockchain.go:1333-1342 | over a run nothing is missed exactly if writeKnownBlock never makes a stored block with logs the head that is not canonical |
| `BlockChains.StepMisses` | src/go-ethereum/core/blockchain.go:1333-1342 | a single step misses logs exactly then |
| `LogStream.TracksAfterRemoved` | src/go-ethereum/core/blockchain.go:2246-2257 | a listener that misses logs goes on missing them, or is lost, when logs are removed |
| `LogStream.TracksAfterNew` | src/go-ethereum/core/blockchain.go:2262-2272 | and when logs are announced |
| `LogStream.TracksExactly` | src/go-ethereum/core/blockchain.go:2236-2272 | a listener is exact exactly if nothing is missing |
| `BlockChains.NothingTwice` | src/go-ethereum/core/blockchain.go:1471-1475 | over a run nothing is announced twice exactly if no operation makes a canonical block with logs the head by other means than writeKnownBlock |
| `BlockChains.StepAgain` | src/go-ethereum/core/blockchain.go:1471-1475 | a single step announces logs twice exactly then |
| `BlockChains.KnownBlockMisses` | src/go-ethereum/core/blockchain.go:1333-1342 | an input on which writeKnownBlock makes a listener miss a log |
| `BlockChains.MissedLog` | src/go-ethereum/core/blockchain.go:1333-1342 | the run of the code on that input |
| `BlockChains.CanonicalAgain` | src/go-ethereum/core/blockchain.go:2306-2321 | an input on which a log is announced twice |
| `BlockChains.LogTwice` | src/go-ethereum/core/blockchain.go:2306-2321 | the run of the code on that input |
| `BlockChains.HeaviestHead` | src/go-ethereum/core/forkchoice.go:77-113 | a node that only imports blocks always follows a heaviest chain it knows, until the terminal total difficulty is reached |
| `BlockChains.TrustedHead` | src/go-ethereum/core/forkchoice.go:77-113 | from the terminal total difficulty on, the last committed import is the head, however heavy the others are |
| `BlockChains.BlockChain.NotConnected` | src/go-ethereum/core/blockchain.go:2158-2165 | a block missing above the fork point rules out every connection |
| `BlockChains.BlockChain.StoredConnected` | src/go-ethereum/core/blockchain.go:2106-2166 | in a stored tree a reorg to a stored block never fails |
| `BlockChains.ForkPointCases` | src/go-ethereum/core/blockchain.go:2145-2166 | the fork point is the new head exactly if the old chain contains the new head already |
| `BlockChains.ReorgCanon` | src/go-ethereum/core/blockchain.go:2197-2234 | overwriting below the new head and cutting above leaves the index of the reorg target |
| `BlockChains.ReorgLookupAt` | src/go-ethereum/core/blockchain.go:2122-2217 | after writing the new entries and deleting dropped-minus-added, a transaction maps to a height exactly if it occurs there on the chain of the reorg target |
| `BlockChains.ReorgLookup` | src/go-ethereum/core/blockchain.go:2122-2217 | so the whole lookup is exactly that of the reorg target |
| `BlockChains.LookupAfterSound` | src/go-ethereum/core/blockchain.go:2199-2217 | no entry of a dropped block survives |
| `BlockChains.LookupAfterComplete` | src/go-ethereum/core/blockchain.go:2199-2217 | no entry of the new chain below its head is lost |
| `BlockChains.InstallLookup` | src/go-ethereum/core/blockchain.go:926-938 | the head's own entries complete the lookup of its chain |
| `BlockChains.SwitchedLogs` | src/go-ethereum/core/blockchain.go:2240-2272 | the logs of both chains split at the fork point into shared, dropped and reborn ones |
| `BlockChains.HashDifference` | src/go-ethereum/core/types/transaction.go:558-573 | exactly the hashes of the first list that are not in the second remain |
| `Chain.ForkPointUnique` | src/go-ethereum/core/blockchain.go:2145-2166 | two chains have one fork point only |
| `Chain.FindForkPoint` | src/go-ethereum/core/blockchain.go:2145-2166 | two chains on the same genesis block have a fork point |
| `Chain.AncestorIffIndexIncluded` | src/go-ethereum/core/blockchain.go:926-938 | one block is an ancestor of another exactly if its canonical index is contained in the other's |
| `ForkChoice.ReorgNeeded` | src/go-ethereum/core/forkchoice.go:77-113 | a missing total difficulty is an error; from the terminal difficulty on every header is followed; before it the heavier chain wins, at equal difficulty the shorter one, at equal height the preserved block or the coin |
| `Rewinds.BlockStore.Walk` | src/go-ethereum/core/blockchain.go:666-705 | the loop ends at the first height at which the walk may settle, gives up, or runs into a missing block, and remembers where the requested root was seen |
| `Rewinds.BlockStore.FindHead` | src/go-ethereum/core/blockchain.go:666-705 | the walk settles on the first block with available or recoverable state once the requested root is seen, aims for genesis exactly at a missing parent or the pivot, and dereferences nil exactly in the remaining case |
| `Rewinds.BlockStore.ClosedWalk` | src/go-ethereum/core/blockchain.go:666-705 | with complete bodies the walk never runs into a missing block, and reaches genesis only past the pivot or at the end |
| `Rewinds.BlockStore.WalkEndsAt` | src/go-ethereum/core/blockchain.go:666-705 | the recursive description of the walk ends where the loop first may stop |
| `Rewinds.BlockStore.PassedAbovePivot` | src/go-ethereum/core/blockchain.go:678-688 | the walk passes stateless blocks above the pivot only |
| `Rewinds.MissingBelowRoot` | src/go-ethereum/core/blockchain.go:691-703 | an input on which the walk dereferences a missing block |
| `Rewinds.NilDereference` | src/go-ethereum/core/blockchain.go:691-703 | the run of the code on that input |
| `Rewinds.BlockStore.Update` | src/go-ethereum/core/blockchain.go:657-752 | with the height of the first stop of the walk: the head block is the one there if the walk settles, genesis if it gives up, and the call fails exactly if the walk runs into a missing block; the snap head follows the header; an already lower head stays |
| `Rewinds.BlockStore.WalkBest` | src/go-ethereum/core/blockchain.go:666-705 | with complete bodies, no requested root and no pivot the walk ends at the highest block with a usable state at or below the header |
| `HeaderChains.HeaderChain.MakeRoom` | src/go-ethereum/core/headerchain.go:148-176 | deleting above and overwriting backwards leaves exactly the ancestors below the import, unless a header is missing |
| `HeaderChains.HeaderChain.Reorg` | src/go-ethereum/core/headerchain.go:134-198 | the canonical slots become exactly the ancestors of the last header, or nothing changes, the latter exactly if a header is missing before the cross link |
| `HeaderChains.HeaderChain.DeleteAbove` | src/go-ethereum/core/headerchain.go:149-156 | every slot above the new head goes, none below |
| `HeaderChains.HeaderChain.OverwriteStale` | src/go-ethereum/core/headerchain.go:157-175 | slots are overwritten down to the cross link, below which both chains agree; it fails exactly if a header is missing on the way |
| `HeaderChains.HeaderChain.PileUp` | src/go-ethereum/core/headerchain.go:177-188 | the imported headers complete the index of the last one |
| `HeaderChains.HeaderChain.CrossLinkAgrees` | src/go-ethereum/core/headerchain.go:157-175 | one canonical ancestor makes all lower slots right |
| `HeaderChains.HeaderChain.StoredLinked` | src/go-ethereum/core/headerchain.go:134-198 | in a stored tree no reorganisation fails |
| `HeaderChains.HeaderChain.StageAll` | src/go-ethereum/core/headerchain.go:212-245 | exactly the unknown headers are batched, each with the sum of difficulties from genesis, although presence is not checked after the first unknown one |
| `HeaderChains.HeaderChain.StageNext` | src/go-ethereum/core/headerchain.go:228-244 | one header enters the batch and the caches unless it is known, in which case the caches agree with the database |
| `HeaderChains.HeaderChain.KnownPrefix` | src/go-ethereum/core/headerchain.go:231-244 | the known headers of an import are a prefix of it |
| `HeaderChains.HeaderChain.WriteHeaders` | src/go-ethereum/core/headerchain.go:204-256 | all headers of the import are stored with number and total difficulty, or none on an unknown parent or an interrupt; caches agree with the database unless interrupted, and after an interrupt exactly if the import was stored before |
| `HeaderChains.HeaderChain.Flush` | src/go-ethereum/core/headerchain.go:251-254 | flushing keeps the stored tree complete and makes the caches agree with it |
| `HeaderChains.HeaderChain.Adopt` | src/go-ethereum/core/headerchain.go:265-301 | the head changes exactly if the fork choice says so and the import is not canonical already |
| `HeaderChains.HeaderChain.WriteHeadersAndSetHead` | src/go-ethereum/core/headerchain.go:265-301 | which imports are refused, which become the head, and that refused ones change nothing in the database |
| `HeaderChains.HeaderChain.Apply` | src/go-ethereum/core/headerchain.go:265-301 | an import or a rewind does to headers and head what its abstract step says, and keeps the chain valid |
| `HeaderChains.HeaderChain.Run` | src/go-ethereum/core/headerchain.go:134-301 | after any run of imports and rewinds, with or without a block store, the slots are exactly the ancestors of the head the abstract run ends in, every total difficulty is the sum along the parents and the caches agree |
| `HeaderChains.HeaviestHead` | src/go-ethereum/core/headerchain.go:265-301 | without rewinds the head is always a heaviest stored header, until the terminal total difficulty is reached |
| `HeaderChains.RewoundHead` | src/go-ethereum/core/headerchain.go:584-590 | a rewind ends at an ancestor |
| `HeaderChains.RewoundHeadUnique` | src/go-ethereum/core/headerchain.go:584-590 | the highest ancestor that meets the target is unique |
| `HeaderChains.ChainedAt` | src/go-ethereum/core/headerchain.go:204-256 | the headers of an import are the ancestors of its last header |
| `HeaderChains.HeaderChain.GetTd` | src/go-ethereum/core/headerchain.go:422-434 | the cached total difficulty is the stored one under arbitrary eviction |
| `HeaderChains.HeaderChain.GetHeader` | src/go-ethereum/core/headerchain.go:438-450 | the cached header is the stored one under arbitrary eviction |
| `HeaderChains.HeaderChain.GetBlockNumber` | src/go-ethereum/core/headerchain.go:112-121 | the cached number is the stored one under arbitrary eviction |
| `HeaderChains.HeaderChain.SetHead` | src/go-ethereum/core/headerchain.go:565-661 | the new head is the highest old canonical header meeting the target; nothing is left above it on any fork, if and only if the old head missed the target or nothing was above it before; the rest stays closed under parents; with complete bodies, no requested root and no pivot the head block ends at the highest block with a usable state at or below the new head, or stays if it was lower; the call panics exactly if a step of the way down does |
| `HeaderChains.WayDownLands` | src/go-ethereum/core/headerchain.go:590-652 | the head block after all steps of a rewind is the one a single walk from the new head would find, although each step continues from the last |
| `HeaderChains.ClosedWayDown` | src/go-ethereum/core/headerchain.go:590-652 | with complete bodies no step of a rewind panics |
| `HeaderChains.LeftAboveHead` | src/go-ethereum/core/headerchain.go:583-590 | an input on which a rewind leaves a header above the head |
| `HeaderChains.LeftAbove` | src/go-ethereum/core/headerchain.go:565-661 | the run of the code on that input |
| `HeaderChains.HeaderChain.RewindStep` | src/go-ethereum/core/headerchain.go:590-652 | one step lowers the markers to the parent and batches all headers of the dropped height, the first time also those above |
| `HeaderChains.HeaderChain.PendingDeletes` | src/go-ethereum/core/headerchain.go:624-651 | the pending deletions are all headers above the new head on all forks |
| `HeaderChains.HeaderChain.RewindAll` | src/go-ethereum/core/headerchain.go:590-652 | the loop ends at the first header meeting the target |
| `HeaderChains.HeaderChain.DropAbove` | src/go-ethereum/core/headerchain.go:653-660 | flushing the deletions leaves a valid chain |
| `HeaderChains.HeaderChain.GetAncestor` | src/go-ethereum/core/headerchain.go:386-418 | the shortcut lookup returns the plain walk's ancestor with its height and fails exactly if the budget does not cover the side steps or a header is missing |
| `HeaderChains.HeaderChain.StoredWalk` | src/go-ethereum/core/headerchain.go:386-418 | in a stored tree it fails for want of budget only |
| `HashFns.HashFn.Get` | src/go-ethereum/core/evm.go:93-129 | a query returns the plain walk's hash whatever the cache holds, and fails exactly if a header on the walk is missing |
| `HashFns.HashFn.CachedAnswer` | src/go-ethereum/core/evm.go:108-110 | a cached hash is the walk's, with all headers before it present |
| `HashFns.HashFn.Answers` | src/go-ethereum/core/evm.go:93-129 | every sequence of queries is answered like the walk |
| `TrieGCs.TrieGC.WriteBlock` | src/go-ethereum/core/blockchain.go:1381-1429 | past height 128 exactly the entries above current - 128 stay, the new root is never dropped, and references equal queue occurrences |
| `TrieGCs.TrieGC.Collect` | src/go-ethereum/core/blockchain.go:1420-1428 | exactly the entries numbered up to the chosen height are dropped, each with one reference |
| `TrieGCs.TrieGC.Pop` | src/go-ethereum/core/blockchain.go:1422 | the entry of the lowest number comes out, with ties broken anyhow |
| `TrieGCs.TrieGC.Stop` | src/go-ethereum/core/blockchain.go:1024-1026 | the drain gives back every reference |
| `TrieGCs.TrieGC.Run` | src/go-ethereum/core/blockchain.go:1381-1429 | any run of writes and the final drain leave no reference |
| `TrieGCs.WithoutCount` | src/go-ethereum/core/blockchain.go:1421-1428 | taking an entry out of the queue takes out one occurrence of its root |
| `ChainIndexers.ChainIndexer.VerifyLastHead` | src/go-ethereum/core/chain_indexer.go:423-430 | exactly stale sections are dropped, from the top down to the first canonical head or the checkpoint, and every stored head above the checkpoint is canonical afterwards |
| `ChainIndexers.ChainIndexer.OneMoreDropped` | src/go-ethereum/core/chain_indexer.go:423-430 | dropping one more stale head keeps the account of what was dropped: only stale heads, and all other entries untouched |
| `ChainIndexers.ChainIndexer.LastHeadSuffices` | src/go-ethereum/core/chain_indexer.go:423-430 | one canonical section head makes all lower ones canonical |
| `SectionIndexes.HeadsDescend` | src/go-ethereum/core/chain_indexer.go:389-418 | section heads descend from each other |
| `ChainIndexers.ChainIndexer.LowerValidSections` | src/go-ethereum/core/chain_indexer.go:480-493 | lowering the count keeps every intermediate database state linked and drops exactly the heads above |
| `ChainIndexers.ChainIndexer.StoreSection` | src/go-ethereum/core/chain_indexer.go:353-354 | head first, count second: every intermediate state is linked |
| `ChainIndexers.ChainIndexer.RevertTo` | src/go-ethereum/core/chain_indexer.go:249-275 | exactly the sections at or below the common ancestor, or under the checkpoint, survive a reorg |
| `ChainIndexers.ChainIndexer.Advance` | src/go-ethereum/core/chain_indexer.go:277-300 | the known count only rises, to the last section with enough confirmations, and past the checkpoint only if the chain agrees with it |
| `ChainIndexers.ChainIndexer.NewHead` | src/go-ethereum/core/chain_indexer.go:244-301 | both modes of a head notification |
| `ChainIndexers.ChainIndexer.Begin` | src/go-ethereum/core/chain_indexer.go:318-338 | the section to process is the first one not stored, on top of canonical heads; only stale sections were dropped before |
| `ChainIndexers.ChainIndexer.ProcessHeader` | src/go-ethereum/core/chain_indexer.go:398-413 | each processed header continues the previous one by parent hash; otherwise the section has failed |
| `ChainIndexers.ChainIndexer.Finish` | src/go-ethereum/core/chain_indexer.go:351-369 | a section is stored exactly if processing committed and the head it was built on is still stored |
| `ChainIndexers.ChainIndexer.Abandon` | src/go-ethereum/core/chain_indexer.go:364-369 | giving up re-verifies the last head, drops stale sections only, and waits for further notification |
| `ChainIndexers.ChainIndexer.Sections` | src/go-ethereum/core/chain_indexer.go:435-441 | no stale section is reported, and no other is dropped |
| `ChainIndexers.ChainIndexer.AddCheckpoint` | src/go-ethereum/core/chain_indexer.go:131-144 | a checkpoint counts its sections as stored unless it is below what is known |
| `ChainIndexers.ChainIndexer.Restart` | src/go-ethereum/core/chain_indexer.go:472-478 | whatever single write a crash follows, the next start finds linked sections |
| `ChainIndexers.ChainIndexer.ResetFails` | src/go-ethereum/core/chain_indexer.go:393-394 | a failed reset starts a roll-back of everything without the lock, beside whatever locked roll-back is under way |
| `ChainIndexers.ChainIndexer.UnlockedStep` | src/go-ethereum/core/chain_indexer.go:480-493 | each single read or write of that roll-back; without an overlap the counter only falls |
| `ChainIndexers.ChainIndexer.StartRevert` | src/go-ethereum/core/chain_indexer.go:244-265 | a reorg lowers the known count at once and leaves the comparison with the stored one to a later step |
| `ChainIndexers.ChainIndexer.LockedStep` | src/go-ethereum/core/chain_indexer.go:262-275 | each single step under the lock; a locked roll-back that starts beside the unlocked one is recorded as an overlap |
| `ChainIndexers.ChainIndexer.VerifyStep` | src/go-ethereum/core/chain_indexer.go:423-430 | each single read of the counter by the verification of the last head |
| `ChainIndexers.ChainIndexer.LowerStep` | src/go-ethereum/core/chain_indexer.go:480-493 | each single read or write of a locked roll-back |
| `ChainIndexers.ChainIndexer.WrappedReport` | src/go-ethereum/core/chain_indexer.go:423-441 | a counter that has wrapped around passes the verification, so it is reported |
| `ChainIndexers.ChainIndexer.ResetEnds` | src/go-ethereum/core/chain_indexer.go:364-369 | when the unlocked roll-back is done the lock is taken and the section given up; nothing is left that could spoil later states |
| `ChainIndexers.ChainIndexer.Apply` | src/go-ethereum/core/chain_indexer.go:305-418 | every step keeps every persisted state linked, unless a locked roll-back to a count above the base overlaps the unlocked one |
| `ChainIndexers.ChainIndexer.Run` | src/go-ethereum/core/chain_indexer.go:244-493 | over all interleavings of notifications, processing steps and the single reads and writes of both kinds of roll-back, every persisted state is linked as long as no locked roll-back to a count above the base overlaps the one after a failed reset; without a failed reset nothing overlaps |
| `ChainIndexers.Overlap` | src/go-ethereum/core/chain_indexer.go:389-396 | a run of the code to the point where both roll-backs are about to start |
| `RollBacks.RaceExact` | src/go-ethereum/core/chain_indexer.go:480-493 | all schedules of the two roll-backs keep every state linked if and only if the locked one does not go to a count above the base |
| `RollBacks.BreakingSchedule` | src/go-ethereum/core/chain_indexer.go:480-493 | for every higher target, a schedule that removes a head under the locked count |
| `RollBacks.LateCount` | src/go-ethereum/core/chain_indexer.go:480-493 | and one that writes the locked count over heads removed before |
| `RollBacks.OvertakenReset` | src/go-ethereum/core/chain_indexer.go:480-493 | both with three stored sections |
| `RollBacks.LowCounts` | src/go-ethereum/core/chain_indexer.go:480-493 | with a low target no count above the base is written by either |
| `RollBacks.AloneStep` | src/go-ethereum/core/chain_indexer.go:480-493 | a roll-back on its own keeps every state linked and its counter never wraps |
| `RollBacks.WrapsAtZero` | src/go-ethereum/core/chain_indexer.go:488 | the counter wraps exactly when zero was loaded, which a roll-back on its own never does |
| `RollBacks.WrappingSchedule` | src/go-ethereum/core/chain_indexer.go:480-493 | beside any locked roll-back some schedule makes the counter wrap |
| `ChainIndexers.JobHeadStep` | src/go-ethereum/core/chain_indexer.go:351-352 | a roll-back that touches the sections below a job removes the head the job compares |
| `SectionIndexes.LinkedGrows` | src/go-ethereum/core/chain_indexer.go:353-354 | raising the count over a linked head keeps the links |
| `SectionIndexes.LinkedShrinks` | src/go-ethereum/core/chain_indexer.go:480-493 | lowering the count keeps the links |
| `ChainIndexers.SectionFits` | src/go-ethereum/core/chain_indexer.go:252 | a section lies below the quotient exactly if it ends at or below the head |
| `Feeds.Feed.Send` | src/go-ethereum/event/feed.go:120-180 | every merged entry is delivered exactly once or was removed before its turn; the result counts the deliveries; the entries removed are those of cancelled subscriptions, channel by channel, so everyone is reached if nobody leaves |
| `Feeds.Feed.SendLoop` | src/go-ethereum/event/feed.go:144-172 | each round serves a case or removes that of a cancelled subscription, so only the removal channel is left in the end |
| `Feeds.Feed.TrySendAll` | src/go-ethereum/event/feed.go:149-155 | trying all cases without blocking keeps the accounts |
| `Feeds.Feed.TrySend` | src/go-ethereum/event/feed.go:149-154 | whatever happens meanwhile, a ready receiver takes the value exactly once, another keeps its turn |
| `Feeds.Feed.Select` | src/go-ethereum/event/feed.go:159-171 | a blocking select serves one case or removes one entry of a waiting subscription, and the two lengths shrink |
| `Feeds.Feed.Serve` | src/go-ethereum/event/feed.go:150-154 | a served case moves out of the active prefix and nothing else changes |
| `Feeds.Feed.RemoveSending` | src/go-ethereum/event/feed.go:161-167 | a removal takes one entry, and counts as missed exactly if it was still active |
| `Feeds.Feed.BeginSend` | src/go-ethereum/event/feed.go:128-144 | the inbox is appended to the cases in order |
| `Feeds.Feed.EndSend` | src/go-ethereum/event/feed.go:156-179 | deliveries and misses add up to what was merged |
| `Feeds.Feed.Subscribe` | src/go-ethereum/event/feed.go:73-93 | one new entry for the new subscription |
| `Feeds.Feed.Unsubscribe` | src/go-ethereum/event/feed.go:95-107 | an inbox entry goes at once, any other waits for its removal |
| `Feeds.Feed.RemoveEntry` | src/go-ethereum/event/feed.go:162-163 | the entry of a waiting subscription is always found, and exactly one goes |
| `Feeds.Feed.RemoveIdle` | src/go-ethereum/event/feed.go:111-114 | without a Send in progress the caller removes its own entry |
| `Feeds.Feed.Step` | src/go-ethereum/event/feed.go:73-180 | one action between two sends, or a whole Send, keeps that and removes cancelled subscriptions only |
| `Feeds.Feed.Find` | src/go-ethereum/event/feed.go:203-210 | the first index of the channel, or -1 exactly if it is absent |
| `Feeds.Feed.DeleteCase` | src/go-ethereum/event/feed.go:213-215 | the cases without the one at the index, in order |
| `Feeds.Feed.Deactivate` | src/go-ethereum/event/feed.go:218-222 | the case is swapped behind the active prefix |
| `Feeds.Feed.Run` | src/go-ethereum/event/feed.go:73-180 | over all interleavings every live subscription has exactly one entry, and none that was not cancelled is lost |
| `Feeds.SwapOutPrefix` | src/go-ethereum/event/feed.go:218-222 | a swap takes exactly one case out of the active prefix |
| `Feeds.SwapOutCount` | src/go-ethereum/event/feed.go:218-222 | a swap loses no case |
| `Feeds.ServeAccount` | src/go-ethereum/event/feed.go:150-154 | serving moves a case from active to delivered |
| `Feeds.RemoveAccount` | src/go-ethereum/event/feed.go:161-167 | removing an active case makes it missed, any other leaves the account alone |
| `Feeds.BalanceSubscribe` | src/go-ethereum/event/feed.go:73-93 | subscribing keeps one entry per subscription |
| `Feeds.BalanceInboxDrop` | src/go-ethereum/event/feed.go:98-106 | so does dropping from the inbox |
| `Feeds.BalancePend` | src/go-ethereum/event/feed.go:108-110 | a subscription not in the inbox has its entry among the send cases |
| `Feeds.BalanceRemove` | src/go-ethereum/event/feed.go:162-163 | removing finds an entry and keeps one per remaining subscription |
| `Feeds.EntriesMore` | src/go-ethereum/event/feed.go:161-167 | one more removed entry belongs to one more subscription that is gone for good |
| `StateTransitions.StateTransition.TransitionDb` | src/go-ethereum/core/state_transition.go:367-467 | a message is applied exactly if acceptable, and otherwise refused with the error of the first check that fails; the world it runs in, the largest refund allowed, every balance afterwards and the pool are given by explicit formulas; before finalisation total ether falls by exactly the burnt fees and what the EVM destroyed |
| `StateTransitions.StateTransition.Admit` | src/go-ethereum/core/state_transition.go:390-419 | all checks together accept exactly the initially valid messages; the first failing one is reported, and one after the purchase leaves sender and pool charged |
| `StateTransitions.StateTransition.ChargeIntrinsic` | src/go-ethereum/core/state_transition.go:396-419 | the checks after the purchase in order; the transfer check never fails |
| `StateTransitions.JudgedInTurn` | src/go-ethereum/core/state_transition.go:274-419 | later checks matter only when all earlier ones hold |
| `StateTransitions.StateTransition.BuyGas` | src/go-ethereum/core/state_transition.go:235-272 | gas is bought exactly if the upfront cost is covered and the pool holds the gas; otherwise nothing changes |
| `StateTransitions.StateTransition.PreCheck` | src/go-ethereum/core/state_transition.go:274-355 | exact condition of all checks before and including the purchase, and the error of the first one that fails |
| `StateTransitions.StateTransition.CheckAccount` | src/go-ethereum/core/state_transition.go:275-296 | nonce equal and below the maximum, and no code at the sender, checked in this order |
| `StateTransitions.StateTransition.CheckFees` | src/go-ethereum/core/state_transition.go:297-321 | caps fit into 256 bits, the tip is below the cap and the cap covers the base fee, checked in this order |
| `StateTransitions.StateTransition.CheckBlobs` | src/go-ethereum/core/state_transition.go:322-353 | blob transactions have a recipient, valid hashes and a sufficient blob fee cap, checked in this order |
| `StateTransitions.StateTransition.RefundGas` | src/go-ethereum/core/state_transition.go:470-488 | the sender is paid for the gas left, refund included, and the pool gets that gas |
| `StateTransitions.StateTransition.PayTip` | src/go-ethereum/core/state_transition.go:446-460 | the producer gets the effective tip for the gas used |
| `StateTransitions.StateTransition.Settle` | src/go-ethereum/core/state_transition.go:438-467 | refund, payback and tip leave the settled world and the pool short by the gas used, with no 256-bit wrap-around |
| `StateTransitions.StateTransition.Perform` | src/go-ethereum/core/state_transition.go:430-467 | an admitted message runs with the gas left after the intrinsic part |
| `StateTransitions.StateDB.SubBalance` | src/go-ethereum/core/state_transition.go:270 | 256-bit subtraction, exact while covered |
| `StateTransitions.StateDB.AddBalance` | src/go-ethereum/core/state_transition.go:481 | 256-bit addition, exact while in range |
| `StateTransitions.StateTransition.Execute` | src/go-ethereum/core/state_transition.go:430-436 | the message runs in a world in which its value is covered, and every unit of ether is accounted for |
| `StateTransitions.CreateBehaves` | src/go-ethereum/core/vm/evm.go:428-437 | a creation that refuses an uncovered value before the nonce is bumped meets what is asked of the EVM |
| `StateTransitions.EtherConserved` | src/go-ethereum/core/state_transition.go:367-467 | supply before equals supply after plus burnt fees plus destroyed ether |
| `StateTransitions.StateDB.Finalise` | src/go-ethereum/core/state/statedb.go:816-858 | flagged accounts are deleted with what they hold, and the refund counter is cleared |
| `StateTransitions.FinalisedTotal` | src/go-ethereum/core/state/statedb.go:834-835 | deleting the flagged accounts loses what the EVM left at them, and the tip exactly if the block's producer is among them |
| `StateTransitions.PrepaidSplit` | src/go-ethereum/core/state_transition.go:235-272 | what is prepaid equals payback plus tip plus burnt fees |
| `StateTransitions.PrepaidCovered` | src/go-ethereum/core/state_transition.go:235-272 | the balance check covers both the charge and the transferred value |
| `StateTransitions.EffectivePrice` | src/go-ethereum/core/state_transition.go:151-173 | the price never exceeds the cap and splits into base fee and tip |
| `StateTransitions.PaybackInRange` | src/go-ethereum/core/state_transition.go:478-481 | the payback cannot wrap around |
| `StateTransitions.TipInRange` | src/go-ethereum/core/state_transition.go:446-460 | nor can the tip |
| `StateTransitions.UsedAtLeast` | src/go-ethereum/core/state_transition.go:470-476 | at least the intrinsic gas less its refundable share is used |
| `StateTransitions.SettledExactly` | src/go-ethereum/core/state_transition.go:438-488 | settling changes two balances: the sender gets the unused gas at the gas price, the producer what the price exceeds the base fee by |
| `StateTransitions.ChargedExactly` | src/go-ethereum/core/state_transition.go:235-272 | an acceptable message owns what it is charged and transfers; the EVM starts with exactly that taken from the sender and a caller's nonce bumped |
| `StateTransitions.RefundedExactly` | src/go-ethereum/core/state_transition.go:470-476 | the refund is the largest that exceeds neither the counter nor a fifth, before London half, of the gas used |
| `StateTransitions.StateTransition.HugeCapUnaffordable` | src/go-ethereum/core/state_transition.go:302-305 | fee caps of 2^256 or more are never affordable |
| `Gas.IntrinsicGas` | src/go-ethereum/core/state_transition.go:70-117 | without an access list the exact unbounded price, or an overflow exactly if it exceeds 64 bits |
| `Gas.PriceByByte` | src/go-ethereum/core/state_transition.go:70-104 | the data price byte by byte and by every word of init code begun |
| `Gas.PriceByEntry` | src/go-ethereum/core/state_transition.go:112-115 | the access list price entry by entry |
| `Gas.DataGas` | src/go-ethereum/core/state_transition.go:70-111 | the checks on the way reject exactly the prices above 64 bits |
| `Gas.Charge` | src/go-ethereum/core/state_transition.go:93-109 | a division guard lets exactly the sums through that fit |
| `Gas.FitsIff` | src/go-ethereum/core/state_transition.go:93-109 | division guard and overflow are equivalent |
| `Gas.ToWordSize` | src/go-ethereum/core/state_transition.go:120-126 | the least number of words that holds the data, for every 64-bit size |
| `Gas.CountNonZero` | src/go-ethereum/core/state_transition.go:82-87 | the number of non-zero bytes |
| `Gas.GasPool.AddGas` | src/go-ethereum/core/gaspool.go:29-35 | adds, or panics exactly if the sum does not fit into 64 bits |
| `Gas.GasPool.SubGas` | src/go-ethereum/core/gaspool.go:39-45 | deducts exactly if the pool holds the amount |
| `StateProcessors.StateProcessor.Process` | src/go-ethereum/core/state_processor.go:60-105 | receipts carry the status of their execution and prefix sums of gas mirrored by the pool, each transaction is acceptable in its turn, the supply falls by what is burnt, destroyed, or lost as a tip of a deleted producer, and it fails exactly at the first unacceptable transaction with the error of its first failing check |
| `StateProcessors.StateProcessor.ApplyTransaction` | src/go-ethereum/core/state_processor.go:107-138 | the receipt has the status of the execution, pool gas and cumulative gas keep adding up to the block limit, and the flagged accounts are deleted |
| `StateProcessors.BlockConserves` | src/go-ethereum/core/state_processor.go:83-95 | over a block, supply changes by what is burnt, destroyed or lost as a tip only |
| `StateProcessors.BlockExact` | src/go-ethereum/core/state_processor.go:83-95 | nothing else is lost exactly if each tip is zero or the producer is not deleted with it |
| `StateProcessors.NoTipLost` | src/go-ethereum/core/state_processor.go:83-95 | no tip is lost exactly if each one is kept |
| `StateProcessors.ProducerDeleted` | src/go-ethereum/core/state_transition.go:459 | an input on which a producer that self-destructs loses its tip |
| `StateProcessors.DoneExtends` | src/go-ethereum/core/state_processor.go:83-95 | appending a receipt keeps all prefix sums |
| `Balances.TotalSet` | src/go-ethereum/core/state_transition.go:235-272 | setting one balance moves the supply by the difference |
| `Balances.TotalSplit` | src/go-ethereum/core/state/statedb.go:834-835 | deleting accounts takes out of the supply what they hold |
| `Balances.HeldSet` | src/go-ethereum/core/state_transition.go:459 | crediting an account changes what a set of accounts holds only if it is among them |
| `Formats.AppendUint64` | src/go-ethereum/log/format.go:192-224 | the grouped text of the signed number; the 26-byte buffer underflows exactly for a sign before twenty digits |
| `Formats.AppendInt64` | src/go-ethereum/log/format.go:184-189 | every int64 has its text, the minimum included |
| `Formats.AppendBigInt` | src/go-ethereum/log/format.go:232-263 | every integer has its text; the buffer always suffices |
| `Formats.FillDigits` | src/go-ethereum/log/format.go:204-218 | writing digits and commas backwards yields the digits in groups of three |
| `Formats.FillText` | src/go-ethereum/log/format.go:240-262 | so does spreading a text backwards |
| `Formats.FillChar` | src/go-ethereum/log/format.go:246-261 | each step moves exactly the last unwritten character, with its comma, to the buffer |
| `Formats.PutChar` | src/go-ethereum/log/format.go:249-260 | a comma goes before every fourth digit, none before the sign |
| `Formats.NegationWraps` | src/go-ethereum/log/format.go:184-187 | the unsigned negation of an int64 is its magnitude, for the minimum too |
| `Formats.ShownStripped` | src/go-ethereum/log/format.go:192-224 | without commas the text is the decimal numeral |
| `Formats.ShownInjective` | src/go-ethereum/log/format.go:192-224 | the text determines the number |
| `Formats.ShownCommas` | src/go-ethereum/log/format.go:209-218 | commas sit exactly at every fourth place from the right, from six digits on |
| `Formats.SignAlone` | src/go-ethereum/log/format.go:249-260 | no comma next to the sign |
| `Formats.BufferTight` | src/go-ethereum/log/format.go:202 | 26 bytes are exactly filled by twenty digits or a sign and nineteen, by nothing else |
| `Formats.SpreadIsGrouped` | src/go-ethereum/log/format.go:209-218 | counting digits from the right produces the groups |
| `Formats.GroupedStripped` | src/go-ethereum/log/format.go:209-218 | removing commas gives the digits back |
| `Formats.CommaPlaces` | src/go-ethereum/log/format.go:209-218 | a grouped numeral starts with a digit and has commas at every fourth place |
| `Decimals.ValueOfDec` | src/go-ethereum/log/format.go:194-199 | a decimal numeral denotes its number |
| `Decimals.DecLength` | src/go-ethereum/log/format.go:202 | the number of digits is decided by powers of ten |
| `Derivations.ParseDerivationPath` | src/go-ethereum/accounts/hd.go:68-118 | the meaning of every path text, errors included |
| `Derivations.ParseComponent` | src/go-ethereum/accounts/hd.go:90-115 | one component with its hardening mark and range check |
| `Derivations.String` | src/go-ethereum/accounts/hd.go:122-136 | the canonical text of a path |
| `Derivations.RoundTrip` | src/go-ethereum/accounts/hd.go:68-136 | parsing the printed form gives the path back, and only the empty path is refused |
| `Derivations.PrintStable` | src/go-ethereum/accounts/hd.go:68-136 | printing what any accepted text parsed to, and parsing again, changes nothing |
| `Derivations.PrintedInjective` | src/go-ethereum/accounts/hd.go:122-136 | different paths print differently |
| `Derivations.RelativeIsAbsolute` | src/go-ethereum/accounts/hd.go:83-84 | a relative text means the absolute text below the default root, errors included |
| `Derivations.SpaceIgnored` | src/go-ethereum/accounts/hd.go:91-92 | white space around a component is ignored |
| `Derivations.ComponentRoundTrip` | src/go-ethereum/accounts/hd.go:90-115 | every component, hardened or not, survives printing and parsing |
| `Derivations.SplitConcat` | src/go-ethereum/accounts/hd.go:72 | splitting at a slash between two texts splits each of them |
| `Derivations.NumeralOfDec` | src/go-ethereum/accounts/hd.go:101-104 | a printed number parses to itself: no octal or hexadecimal prefix arises |
| `Derivations.NoPath` | src/go-ethereum/accounts/hd.go:73-88 | a text that is blank before its first slash is ambiguous, and the mark alone is empty |
| `Derivations.ComponentRange` | src/go-ethereum/accounts/hd.go:90-112 | a component is accepted exactly within 32 bits, or 31 bits with a quote, which adds the hardened bit; white space may stand around it and before the quote |
| `Derivations.NumeralValue` | src/go-ethereum/accounts/hd.go:101-104 | a numeral denotes its positional value in the base its prefix names, in octal after a bare zero, with its sign |

## Left out

- Crash consistency of `reorg`: when at most one new block is collected the slots are deleted before
  the head marker moves, so only completed calls are described.
- Chain, side and head events, the futureBlocks queue, block validation and the insertion loop around
  `writeBlockAndSetHead`; how `recoverAncestors` recovers a missing state (its outcome is a parameter).
- Blocks stored without receipts (`insertSideChain`, snap sync): receipts are stored with their block.
- Limits on the transaction index (`core/txindexer.go`) and the in-memory lookup cache.
- The freezer (ancient store), forced wipes, snapshots, the path-based trie scheme beyond
  recoverability, and the repair flag, safe and finalized markers of `setHeadBeyondRoot`.
- Reads of header caches that an interrupted import of new headers has left ahead of the database.
- Flushing of tries to disk (`Cap`, `Commit`) in `writeBlockWithState`: it does not touch references.
- ChainIndexers: child indexers, throttling and the update channel are left out; headers a backend
  processes are opaque; heights do not wrap around except where a roll-back or a verification runs step
  by step, and the last block reported for zero sections.
- ChainIndexers.ChainIndexer.Run: is followed up to the first locked roll-back above the base that
  overlaps an unlocked one; from there on `RollBacks.RaceExact` says that some schedule breaks the links.
- ChainIndexers.ChainIndexer.Sections: is described while no roll-back runs without the lock; beside one
  only its single steps are (`VerifyStep`), and a wrapped counter is reported (`WrappedReport`).
- HeaderChains.HeaderChain.Run: interrupted imports are described by `WriteHeadersAndSetHead` only.
- Feeds: type checks and their panics, the stored send value, and closing of the error channel.
- StateTransitions: simulation calls (`NoBaseFee`, `SkipAccountChecks`, absent fee caps) and tracing.
- StateProcessors: block rewards and withdrawals in the engine's `Finalize`, the DAO fork, the beacon root
  call, bloom filters and logs of receipts.
- Formats: terminal and logfmt layout, escaping, times, and the 256-bit variant, whose grouping is in a
  library.
- Derivations: JSON forms and the path iterators; the text is a sequence of Unicode characters, so
  invalid UTF-8 is not described.
- Networking, RPC, consensus engines, key storage, metrics and the fuzzer.
