# A verified model of the block indexer

`indexer.py` walks an Ethereum-style chain block by block and records what
it sees in three SQLite tables: `blocks` (number, transaction count,
`processed` flag), `contracts` (address, creation block, creator, a
transaction counter `num_tx`) and `transactions` (hash, block, sender,
resolved recipient). Every insert is an `INSERT OR IGNORE`. Two plain
`UPDATE`s change rows in place. The `num_tx` bump runs for every
transaction, new or not. The `processed` flag is set on a block without
transactions at once, and on any other block only when its transaction
loop runs to the end. A failure in `processBlock` is logged and swallowed.
A failure inside the transaction loop leaves the block stored and
unflagged, so the next run retries it. A failed fetch of the block itself
writes nothing; once a higher block is stored, `next_block` has moved past
it and no later run scans it again. Each startup of `check_sql_engine`
advances the `user_version` pragma by one step, from 0 to 1 and from 1 to
2, and leaves 2 as it is.

This project models that engine in Dafny.

- **Tables**: the three tables as a value `Db`. It defines the
  insert-or-ignore primitives `addBlock`, `addContract` and `addTx`, the
  "mark processed" update, and the existence tests `blockInDb` and
  `contractInDb`.
- **Rpc**: the node as a value `Chain`. Block `n` is `blocks[n]` and the
  head is the last block. The set `code` holds the addresses whose code is
  not `0x`. A `Fault` says where an RPC call of `processBlock` raises: the
  block fetch, or the fetch of transaction `k`.
- **Scan**: `processBlock` and `main` as functions of the tables. This is
  the specification the imperative code is proved against.
- **Indexer**: the connection as a class `Store`. Its map fields and its
  `userVersion` are updated in place by methods with the source's loops.
  Each method is proved to end in the state that Scan (or Tables)
  prescribes.
- **Schema**: the `user_version` state machine of `check_sql_engine`.
- **Proofs**: the guarantees and non-guarantees of the indexer, stated
  over Scan.
- **Scenarios**: small chains worked out end to end.

Four behaviours of the code that are easy to miss:

- A contract discovered through `get_code` ends its first transaction with
  `num_tx` 2, not 1. The insert sets 1, and `addTx` adds 1.
- Rows written before a failure stay in the tables. Nothing is rolled
  back.
- A brand-new database starts at `user_version` 0. Its first startup
  therefore ends at version 1, not 2.
- The `num_tx` increment is unconditional. Re-processing a block inflates
  the counters.

## Model

| member | source | states |
|---|---|---|
| Tables.BlockInDbIffAddIgnored | indexer.py:124-130 | `blockInDb` is true exactly when `addBlock` of that number would be ignored |
| Tables.ContractInDbIffAddIgnored | indexer.py:115-121 | `contractInDb` is true exactly when `addContract` of that address would be ignored |
| Rpc.Recipient | indexer.py:82-86 | `to_address` is the transaction's `to`, or the receipt's `contractAddress` for a creation |
| Tables.InsertBlock | indexer.py:145-149 | `addBlock`: a new number gets the row `{num_txs, processed: false}`; an existing row is left as it is; no other table changes |
| Tables.InsertContract | indexer.py:152-157 | `addContract`: a new address gets `{created_block, creator, num_tx: 1}`; an existing row is left as it is; no other table changes |
| Tables.InsertTx | indexer.py:133-142 | `addTx`: the transaction row is inserted only if its hash is new; the contract named by `to_address`, if any, has its `num_tx` raised by one in either case, with its creation data kept; blocks are unchanged |
| Tables.MarkProcessed | indexer.py:104-109 | the processed update: keys and `num_txs` are kept; a block is processed afterwards exactly when it is `number` or already was; an absent row stays absent |
| Indexer.Store.constructor | indexer.py:188 | a new database after `metadata.create_all` (the engine is opened at indexer.py:31-35): empty tables and `user_version` 0 |
| Indexer.Store.BlockInDb | indexer.py:124-130 | `blockInDb`: true exactly when a row with that number is stored |
| Indexer.Store.ContractInDb | indexer.py:115-121 | `contractInDb`: true exactly when a row with that address is stored |
| Indexer.Store.AddBlock | indexer.py:145-149 | the in-place `addBlock` ends in `InsertBlock` of the old tables |
| Indexer.Store.AddContract | indexer.py:152-157 | the in-place `addContract` ends in `InsertContract` of the old tables |
| Indexer.Store.AddTx | indexer.py:133-142 | the in-place `addTx` ends in `InsertTx` of the old tables |
| Indexer.Store.SetProcessed | indexer.py:104-109 | the in-place update ends in `MarkProcessed` of the old tables |
| Indexer.Store.IndexTx | indexer.py:81-100 | one pass of the transaction loop ends in `Scan.ClassifyTx`: creation, `contractInDb`, the `get_code` test, then `addTx` |
| Indexer.Store.ProcessBlock | indexer.py:69-112 | `processBlock` ends in `Scan.ProcessBlock` of the old tables; a failed block fetch changes nothing |
| Indexer.Store.WalkBlock | indexer.py:79-105 | the transaction loop ends in `WalkTxs` over the completed prefix, with the flag set only when `count == block_tx_count` |
| Indexer.Store.HighestBlock | indexer.py:56-57 | `ORDER BY number DESC LIMIT 1`: no row exactly when `blocks` is empty, otherwise a stored number no smaller than any other |
| Indexer.Store.NextBlockNumber | indexer.py:56-61 | `next_block` is one past the highest stored number, or 0 when `fetchone()` yields no row |
| Indexer.Store.UnprocessedBlocks | indexer.py:44-50 | the retry list is `Scan.RetryList` of the current tables |
| Indexer.Store.ProcessEach | indexer.py:53-54 | `processBlock` applied in order to each number of the list ends in `Scan.ProcessAll` |
| Indexer.Store.Run | indexer.py:40-64 | one `main` ends in `Scan.Run` of the old tables |
| Indexer.Store.Migrate | indexer.py:189-203 | `user_version` becomes `Schema.Startup` of its old value; the tables are unchanged |
| Scan.Completed | indexer.py:80-101 | the loop completes fewer than all transactions exactly when a transaction fetch fails inside the block |
| Scan.NextBlock | indexer.py:56-61 | `next_block` is greater than every stored number and is 0 or one past a stored number |
| Scan.RetryBelow | indexer.py:44-50 | the list holds exactly the numbers with `processed == False` and `num_txs != 0`, each once, ascending |
| Scan.Range | indexer.py:63 | `range(lo, hi)`: `hi - lo` elements `lo, lo+1, …`, empty when `hi <= lo` |
| Scan.WalkTxsSnoc | indexer.py:80-101 | helper: one more loop pass extends the walk by one `ClassifyTx` |
| Scan.ProcessAllSnoc | indexer.py:53-54 | helper: one more loop pass extends the scan by one `processBlock` |
| Scan.HighestExists | indexer.py:56-59 | helper: a non-empty `blocks` table has a highest number |
| Schema.Startup | indexer.py:189-203 | one startup: versions 0 and 1 advance by one; 2 and above are left as they are, because `version` is read once |
| Schema.StartupsReachCurrent | indexer.py:189-203 | repeated startups from version 0, 1 or 2 advance one version per start until 2, then stay there |
| Proofs.ContractCreation | indexer.py:84-87 | a creation registers the receipt's address with the sender as creator, with `num_tx` 2 if new; files the transaction under that address; never depends on `get_code` |
| Proofs.DiscoveryByCode | indexer.py:89-97 | an unknown recipient becomes a contract exactly when its code is non-empty; it is its own creator, with `num_tx` 2 |
| Proofs.CounterAlwaysBumps | indexer.py:133-140 | a repeated hash adds no row, yet every contract's counter rises by one exactly when it is the recipient |
| Proofs.WalkTxsKeeps | indexer.py:80-101 | the loop changes no block row, keeps every transaction row and contract creation, and never lowers a counter |
| Proofs.WalkTxsCovers | indexer.py:80-101 | after the loop, every walked transaction has its row, its created contract and its code-bearing recipient stored |
| Proofs.WalkTxsKeysFrom | indexer.py:80-101 | every transaction row after the loop was there before or has the hash of a walked transaction |
| Proofs.WalkTxsRows | indexer.py:133-138 | the first transaction with a new hash is stored as `{number, from, to_address}`; later duplicates are ignored |
| Proofs.RewalkOnlyBumps | indexer.py:80-101 | walking transactions that are already stored adds no row and only raises the counters, by the number of transactions to each contract |
| Proofs.WalkBlockKeeps | indexer.py:79-105 | the loop and the flag after it change no other block row; the block's flag ends set exactly when it was set or the loop completed |
| Proofs.ProcessBlockKeeps | indexer.py:69-112 | `processBlock` removes no row, rewrites no transaction, clears no flag, and adds no block row but its own |
| Proofs.ProcessedFlag | indexer.py:75-109 | after a successful fetch the block row exists, with `num_txs` from the chain if it is new, and is processed exactly when it already was or every transaction was walked; a failed fetch changes nothing |
| Proofs.EmptyBlockShortcut | indexer.py:106-109 | a block without transactions is flagged at once and writes no other row |
| Proofs.CompleteBlockIndexed | indexer.py:79-105 | a block processed without failure has every transaction's rows stored, and each new hash is stored as its first transaction |
| Proofs.FailureLeavesRetry | indexer.py:69-112 | a failure at transaction `k` keeps the rows of the transactions before it and leaves the block unflagged, so it is in the next run's retry list |
| Proofs.RerunInflatesCounters | indexer.py:69-140 | a second `processBlock` right after a faultless one adds no row and keeps the flag, yet raises each contract's `num_tx` once more per transaction to it (`main` itself never makes this call) |
| Proofs.ProcessedBlockInflatesCounters | indexer.py:69-140 | `processBlock` on a block already flagged processed, in any store where processed blocks have all their transactions stored, adds no row and changes no block, yet raises each contract's `num_tx` once more per transaction to it |
| Proofs.WalkTxsBumps | indexer.py:80-101 | the loop raises an existing contract's `num_tx` by the number of walked transactions addressed to it |
| Proofs.ProcessBlockBumps | indexer.py:69-140 | `processBlock` raises an existing contract's `num_tx` by the number of completed transactions addressed to it |
| Proofs.RetryAfterFailureInflatesCounters | indexer.py:40-140 | the retry `main` makes after a failure at transaction `k` leaves each existing contract's `num_tx` above a faultless pass by the number of the first `k` transactions addressed to it |
| Proofs.ProcessAllKeeps | indexer.py:53-64 | a sequence of `processBlock` calls removes no row and clears no flag |
| Proofs.RetriesKeepBlockKeys | indexer.py:53-54 | reprocessing stored blocks adds no block row |
| Proofs.NextBlockOfKeys | indexer.py:56-61 | helper: `next_block` depends only on the stored block numbers |
| Proofs.RetryListIsRetrySet | indexer.py:44-50 | the retry list holds exactly the unprocessed blocks with transactions, ascending |
| Proofs.RunSchedule | indexer.py:40-64 | a run retries the retry set first, then scans every number from one past the highest block stored before the run up to, but not including, the head, ascending |
| Proofs.RunKeeps | indexer.py:40-64 | no run removes a row, rewrites a transaction or clears a processed flag |
| Proofs.CoversKept | indexer.py:133-157 | helper: rows written once stay written |
| Proofs.ProcessBlockIndexed | indexer.py:69-112 | `processBlock` preserves "every processed block has all its transactions stored" |
| Proofs.ProcessAllIndexed | indexer.py:53-64 | a sequence of `processBlock` calls preserves that invariant |
| Proofs.RunIndexed | indexer.py:40-64 | a run preserves that invariant, and a new store satisfies it |
| Scenarios.EmptyStoreScansFromZero | indexer.py:56-64 | on an empty store a run is a scan of `range(0, head)` |
| Scenarios.EmptyBlockStep | indexer.py:106-109 | a new empty block is inserted with `num_txs` 0 and flagged |
| Scenarios.PlainTransferStep | indexer.py:79-105 | a new block with one transfer to a codeless address adds the flagged block and one transaction row, and no contract |
| Scenarios.TwoEmptyBlocks | indexer.py:63-64 | scanning two empty blocks from an empty store flags both |
| Scenarios.FreshScan | indexer.py:40-112 | a first run over a four-block chain stores blocks 0-2, all flagged, and one transaction row; the head block is not scanned |
| Scenarios.FetchFailureSkipped | indexer.py:40-73 | on a fresh store, a block whose fetch fails is not stored and not in the retry list, and `next_block` has moved past it once the next block is stored |
| Scenarios.NoRetryBelow | indexer.py:44-50 | helper: with no retry row below a bound, the retry list up to that bound is empty |
| Scenarios.OnlyBlockFiveRetried | indexer.py:40-64 | a store holding only the unflagged block 5, on a chain whose head is 5, runs exactly `processBlock(5)` |
| Scenarios.BlockFiveFlagged | indexer.py:75-105 | that retry flags block 5 and adds no other block |
| Scenarios.BlockFiveRows | indexer.py:80-101 | that retry writes exactly the block's two transaction rows |
| Scenarios.ResumeBlock | indexer.py:40-112 | resuming after a crash inside block 5 flags it and writes its two transaction rows, and nothing else is scanned |
| Scenarios.DiscoveredContract | indexer.py:89-100 | a transaction to an address with code registers it as created in that block by itself, with `num_tx` 2 |

## Left out

- Logging, the `asyncio` event loop and `KeyboardInterrupt` have no effect on the tables and are not modelled.
- The RPC node is a value: the chain, and the set of addresses whose code is non-empty. A raised RPC call is a `Fault` parameter, at most one per block. Every RPC failure inside transaction `k` (`getTransaction`, the receipt, `get_code`) happens before that transaction writes anything, so one `TxFetchFails(k)` stands for all of them.
- Failures of the database writes themselves are not modelled. Only RPC faults are.
- A failure of the retry query, of the `next_block` query or of `get_block('latest')` is outside the per-block `try` and would end `main`. It is not modelled. An empty chain gives an empty scan range.
- The retry `SELECT` has no `ORDER BY`. It is modelled in ascending key order, the rowid order of an INTEGER PRIMARY KEY table.
- The SQLAlchemy table definitions and `create_all` are not modelled; the tables always have the current columns. The `ALTER TABLE … ADD COLUMN num_tx` and `UPDATE contracts SET num_tx = 1` of the version-0 step, and the `CREATE TABLE votes` of the version-1 step, only matter for a file created by an older schema. Indexer.Store.Migrate models the `user_version` logic alone and leaves the tables unchanged.
- A NULL `contractAddress` in a receipt and a NULL `num_tx` cannot occur in the model: addresses are strings and counters are naturals.
- Integers are unbounded. SQLite's 64-bit integers are not modelled.
- `webapp.py` is not part of this model.
