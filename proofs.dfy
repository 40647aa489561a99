/**
 What the indexer guarantees, and what it does not, stated over the
 functions of module Scan: insert-or-ignore across a whole block, the
 processed flag, the unconditional counter, failure and retry, and the
 schedule of one run.
 */
module Proofs {
  import opened Tables
  import opened Rpc
  import opened Scan

  /**
   Rows are only ever added: every transaction row of `a` is still in `b`
   unchanged, and every contract row of `a` is still in `b` with the same
   creation data and a counter that has not gone down.
   */
  ghost predicate RowsKept(a: Db, b: Db) {
    && (forall t :: t in a.txs ==> t in b.txs && b.txs[t] == a.txs[t])
    && (forall c :: c in a.contracts ==>
          c in b.contracts &&
          b.contracts[c].createdBlock == a.contracts[c].createdBlock &&
          b.contracts[c].creator == a.contracts[c].creator &&
          b.contracts[c].numTx >= a.contracts[c].numTx)
  }

  /** Block rows are never removed, keep their `num_txs`, and a processed flag is never cleared. */
  ghost predicate BlocksKept(a: Db, b: Db) {
    forall k :: k in a.blocks ==>
      k in b.blocks &&
      b.blocks[k].numTxs == a.blocks[k].numTxs &&
      (a.blocks[k].processed ==> b.blocks[k].processed)
  }

  /**
   Everything one transaction leaves behind: its row, the deployed contract
   for a creation, and a contract row for a recipient with code.
   */
  predicate Seen(db: Db, chain: Chain, tx: Tx) {
    && tx.hash in db.txs
    && (tx.to.None? ==> tx.contractAddress in db.contracts)
    && (Recipient(tx) in chain.code ==> Recipient(tx) in db.contracts)
  }

  ghost predicate Covers(db: Db, chain: Chain, txs: seq<Tx>) {
    forall i :: 0 <= i < |txs| ==> Seen(db, chain, txs[i])
  }

  /** `txs[i]` is the first transaction of `txs` with its hash. */
  predicate FirstWithHash(txs: seq<Tx>, i: nat)
    requires i < |txs|
  {
    forall j :: 0 <= j < i ==> txs[j].hash != txs[i].hash
  }

  /** How many of `txs` name `a` as their (resolved) recipient. */
  function CountTo(txs: seq<Tx>, a: Addr): nat
    decreases |txs|
  {
    if txs == [] then 0
    else CountTo(txs[..|txs| - 1], a) + (if Recipient(txs[|txs| - 1]) == a then 1 else 0)
  }

  // ---------------------------------------------------------------------
  // One transaction
  // ---------------------------------------------------------------------

  /**
   A contract creation files the transaction under the receipt's address,
   registers that contract with the sender as creator before the
   transaction row is written, and never consults `get_code`.
   */
  lemma ContractCreation(db: Db, chain: Chain, number: nat, tx: Tx, otherCode: set<Addr>)
    requires tx.to.None?
    ensures var r := ClassifyTx(db, chain, number, tx);
      && tx.contractAddress in r.contracts
      && (tx.contractAddress !in db.contracts ==>
            r.contracts[tx.contractAddress] == ContractRow(number, tx.sender, 2))
      && (tx.hash !in db.txs ==> r.txs[tx.hash] == TxRow(number, tx.sender, tx.contractAddress))
      && ClassifyTx(db, Chain(chain.blocks, otherCode), number, tx) == r
  {
  }

  /**
   A recipient not yet known as a contract becomes one exactly when its code
   is non-empty; it is then its own creator and ends the transaction with a
   counter of 2 (1 from the insert, 1 from the increment).
   */
  lemma DiscoveryByCode(db: Db, chain: Chain, number: nat, tx: Tx)
    requires tx.to.Some? && tx.to.value !in db.contracts
    ensures var r := ClassifyTx(db, chain, number, tx);
      && (tx.to.value in r.contracts <==> tx.to.value in chain.code)
      && (tx.to.value in chain.code ==> r.contracts[tx.to.value] == ContractRow(number, tx.to.value, 2))
      && r.contracts.Keys <= db.contracts.Keys + {tx.to.value}
  {
  }

  /**
   `addTx` raises the recipient's counter by one whether or not the
   transaction row was new; no other contract changes.
   */
  lemma CounterAlwaysBumps(db: Db, chain: Chain, number: nat, tx: Tx)
    ensures var r := ClassifyTx(db, chain, number, tx);
      && (tx.hash in db.txs ==> r.txs == db.txs)
      && forall c :: c in db.contracts ==>
           r.contracts[c].numTx == db.contracts[c].numTx + (if c == Recipient(tx) then 1 else 0)
  {
  }

  // ---------------------------------------------------------------------
  // The transaction loop
  // ---------------------------------------------------------------------

  /** The loop changes no block row and only adds to the other tables. */
  lemma {:induction false} WalkTxsKeeps(db: Db, chain: Chain, number: nat, txs: seq<Tx>)
    ensures var r := WalkTxs(db, chain, number, txs);
      r.blocks == db.blocks && RowsKept(db, r)
    decreases |txs|
  {
    if txs != [] {
      WalkTxsKeeps(db, chain, number, txs[..|txs| - 1]);
    }
  }

  /** After the loop every transaction walked has left its rows behind. */
  lemma {:induction false} WalkTxsCovers(db: Db, chain: Chain, number: nat, txs: seq<Tx>)
    ensures Covers(WalkTxs(db, chain, number, txs), chain, txs)
    decreases |txs|
  {
    if txs != [] {
      var init := txs[..|txs| - 1];
      var before := WalkTxs(db, chain, number, init);
      WalkTxsCovers(db, chain, number, init);
      var after := ClassifyTx(before, chain, number, txs[|txs| - 1]);
      assert RowsKept(before, after);
      forall i | 0 <= i < |txs| ensures Seen(after, chain, txs[i]) {
        if i < |init| {
          assert Seen(before, chain, init[i]);
        }
      }
    }
  }

  /** Every transaction key after the loop was there before or is a walked hash. */
  lemma {:induction false} WalkTxsKeysFrom(db: Db, chain: Chain, number: nat, txs: seq<Tx>, t: TxId)
    requires t in WalkTxs(db, chain, number, txs).txs
    ensures t in db.txs || exists i :: 0 <= i < |txs| && txs[i].hash == t
    decreases |txs|
  {
    if txs != [] {
      var init := txs[..|txs| - 1];
      if t != txs[|txs| - 1].hash {
        WalkTxsKeysFrom(db, chain, number, init, t);
        if t !in db.txs {
          var i :| 0 <= i < |init| && init[i].hash == t;
          assert txs[i].hash == t;
        }
      }
    }
  }

  /**
   The first transaction with a given hash, when that hash was not stored
   before, is stored with this block number, its sender and its resolved
   recipient.
   */
  lemma {:induction false} WalkTxsRows(db: Db, chain: Chain, number: nat, txs: seq<Tx>, i: nat)
    requires i < |txs| && txs[i].hash !in db.txs && FirstWithHash(txs, i)
    ensures txs[i].hash in WalkTxs(db, chain, number, txs).txs
    ensures WalkTxs(db, chain, number, txs).txs[txs[i].hash] == TxRow(number, txs[i].sender, Recipient(txs[i]))
    decreases |txs|
  {
    WalkTxsCovers(db, chain, number, txs);
    var init := txs[..|txs| - 1];
    var before := WalkTxs(db, chain, number, init);
    if i < |init| {
      WalkTxsRows(db, chain, number, init, i);
      WalkTxsCovers(db, chain, number, init);
      assert Seen(before, chain, init[i]);
    } else {
      if txs[i].hash in before.txs {
        WalkTxsKeysFrom(db, chain, number, init, txs[i].hash);
        assert false;
      }
    }
  }

  /**
   Walking transactions whose rows are all present already changes nothing
   but the counters: each contract's `num_tx` rises by the number of those
   transactions addressed to it.
   */
  lemma {:induction false} RewalkOnlyBumps(db: Db, chain: Chain, number: nat, txs: seq<Tx>)
    requires Covers(db, chain, txs)
    ensures var r := WalkTxs(db, chain, number, txs);
      && r.blocks == db.blocks && r.txs == db.txs
      && r.contracts.Keys == db.contracts.Keys
      && forall c :: c in db.contracts ==>
           r.contracts[c].createdBlock == db.contracts[c].createdBlock &&
           r.contracts[c].creator == db.contracts[c].creator &&
           r.contracts[c].numTx == db.contracts[c].numTx + CountTo(txs, c)
    decreases |txs|
  {
    if txs != [] {
      var init := txs[..|txs| - 1];
      var last := txs[|txs| - 1];
      assert Covers(db, chain, init) by {
        forall i | 0 <= i < |init| ensures Seen(db, chain, init[i]) {
          assert init[i] == txs[i];
        }
      }
      RewalkOnlyBumps(db, chain, number, init);
      var before := WalkTxs(db, chain, number, init);
      assert Seen(db, chain, last);
      assert Seen(before, chain, last);
    }
  }

  // ---------------------------------------------------------------------
  // One block
  // ---------------------------------------------------------------------

  /**
   The transaction loop and the flag after it only add rows, and change no
   block row but the flag of their own block, which ends set exactly when
   it was set before or the loop ran to the end.
   */
  lemma WalkBlockKeeps(db: Db, chain: Chain, number: nat, txs: seq<Tx>, fault: Fault)
    ensures var r := WalkBlock(db, chain, number, txs, fault);
      && RowsKept(db, r) && BlocksKept(db, r) && r.blocks.Keys == db.blocks.Keys
      && (forall k :: k in db.blocks && k != number ==> r.blocks[k] == db.blocks[k])
      && (number in db.blocks ==>
            (r.blocks[number].processed <==> db.blocks[number].processed || Completed(fault, |txs|) == |txs|))
  {
    WalkTxsKeeps(db, chain, number, txs[..Completed(fault, |txs|)]);
  }

  /** `processBlock` only adds rows, and touches no block row but its own. */
  lemma ProcessBlockKeeps(db: Db, chain: Chain, number: nat, fault: Fault)
    ensures var r := ProcessBlock(db, chain, number, fault);
      && RowsKept(db, r) && BlocksKept(db, r)
      && r.blocks.Keys <= db.blocks.Keys + {number}
      && forall k :: k in db.blocks && k != number ==> r.blocks[k] == db.blocks[k]
  {
    if number < |chain.blocks| && fault != BlockFetchFails {
      var txs := chain.blocks[number].txs;
      var added := if BlockInDb(db, number) then db else InsertBlock(db, number, |txs|);
      WalkBlockKeeps(added, chain, number, txs, fault);
    }
  }

  /**
   When the block can be fetched, its row exists afterwards, and it is
   processed exactly when it already was or every one of its transactions
   was walked; a block with no transactions is flagged at once. When it
   cannot be fetched, nothing changes.
   */
  lemma ProcessedFlag(db: Db, chain: Chain, number: nat, fault: Fault)
    ensures var r := ProcessBlock(db, chain, number, fault);
      if number < |chain.blocks| && fault != BlockFetchFails then
        var txs := chain.blocks[number].txs;
        && number in r.blocks
        && (number !in db.blocks ==> r.blocks[number].numTxs == |txs|)
        && (r.blocks[number].processed <==>
              (number in db.blocks && db.blocks[number].processed) || Completed(fault, |txs|) == |txs|)
      else
        r == db
  {
    if number < |chain.blocks| && fault != BlockFetchFails {
      var txs := chain.blocks[number].txs;
      var added := if BlockInDb(db, number) then db else InsertBlock(db, number, |txs|);
      WalkBlockKeeps(added, chain, number, txs, fault);
    }
  }

  /** A block without transactions is flagged processed and adds no transaction or contract row. */
  lemma EmptyBlockShortcut(db: Db, chain: Chain, number: nat, fault: Fault)
    requires number < |chain.blocks| && chain.blocks[number].txs == [] && fault != BlockFetchFails
    ensures var r := ProcessBlock(db, chain, number, fault);
      number in r.blocks && r.blocks[number].processed && r.txs == db.txs && r.contracts == db.contracts
  {
  }

  /**
   A block processed without failure has every transaction's rows in the
   tables, and the first transaction with each new hash stored as
   `{number, from, to_address}`.
   */
  lemma CompleteBlockIndexed(db: Db, chain: Chain, number: nat)
    requires number < |chain.blocks|
    ensures var r := ProcessBlock(db, chain, number, NoFault);
      var txs := chain.blocks[number].txs;
      && Covers(r, chain, txs)
      && forall i :: 0 <= i < |txs| && txs[i].hash !in db.txs && FirstWithHash(txs, i) ==>
           r.txs[txs[i].hash] == TxRow(number, txs[i].sender, Recipient(txs[i]))
  {
    var txs := chain.blocks[number].txs;
    var added := if BlockInDb(db, number) then db else InsertBlock(db, number, |txs|);
    assert txs[..|txs|] == txs;
    WalkTxsCovers(added, chain, number, txs);
    forall i | 0 <= i < |txs| && txs[i].hash !in db.txs && FirstWithHash(txs, i)
      ensures ProcessBlock(db, chain, number, NoFault).txs[txs[i].hash]
           == TxRow(number, txs[i].sender, Recipient(txs[i]))
    {
      WalkTxsRows(added, chain, number, txs, i);
    }
  }

  /**
   A failure at transaction `k` keeps the rows of the transactions before it,
   leaves the flag unset on a block that was not processed, and so (with a
   non-zero `num_txs`) leaves the block in the next run's retry set.
   */
  lemma FailureLeavesRetry(db: Db, chain: Chain, number: nat, k: nat)
    requires number < |chain.blocks| && k < |chain.blocks[number].txs|
    requires number !in db.blocks || !db.blocks[number].processed
    ensures var r := ProcessBlock(db, chain, number, TxFetchFails(k));
      var txs := chain.blocks[number].txs;
      && RowsKept(db, r)
      && (forall i :: 0 <= i < k ==> Seen(r, chain, txs[i]))
      && number in r.blocks && !r.blocks[number].processed
      && (number !in db.blocks || db.blocks[number].numTxs != 0 ==> number in RetryList(r))
  {
    var txs := chain.blocks[number].txs;
    var added := if BlockInDb(db, number) then db else InsertBlock(db, number, |txs|);
    WalkTxsCovers(added, chain, number, txs[..k]);
    ProcessedFlag(db, chain, number, TxFetchFails(k));
    ProcessBlockKeeps(db, chain, number, TxFetchFails(k));
    var r := ProcessBlock(db, chain, number, TxFetchFails(k));
    forall i | 0 <= i < k ensures Seen(r, chain, txs[i]) {
      assert txs[..k][i] == txs[i];
    }
  }

  /**
   Running `processBlock` again on a block it completed duplicates no row
   and keeps the flag, yet raises each contract's `num_tx` once more per
   transaction of the block addressed to it.
   */
  lemma RerunInflatesCounters(db: Db, chain: Chain, number: nat)
    requires number < |chain.blocks|
    ensures var once := ProcessBlock(db, chain, number, NoFault);
      var twice := ProcessBlock(once, chain, number, NoFault);
      var txs := chain.blocks[number].txs;
      && number in once.blocks && once.blocks[number].processed
      && twice.blocks == once.blocks && twice.txs == once.txs
      && twice.contracts.Keys == once.contracts.Keys
      && forall c :: c in once.contracts ==>
           twice.contracts[c].createdBlock == once.contracts[c].createdBlock &&
           twice.contracts[c].creator == once.contracts[c].creator &&
           twice.contracts[c].numTx == once.contracts[c].numTx + CountTo(txs, c)
  {
    var txs := chain.blocks[number].txs;
    var once := ProcessBlock(db, chain, number, NoFault);
    ProcessedFlag(db, chain, number, NoFault);
    CompleteBlockIndexed(db, chain, number);
    assert txs[..|txs|] == txs;
    RewalkOnlyBumps(once, chain, number, txs);
    var walked := WalkTxs(once, chain, number, txs);
    assert once.blocks[number := once.blocks[number].(processed := true)] == once.blocks;
    if txs == [] {
      forall c | c in once.contracts ensures CountTo(txs, c) == 0 {
      }
    }
  }

  /**
   `processBlock` run on a block that a store keeping the invariant already
   flags processed duplicates no row and keeps the flag, yet raises each
   contract's `num_tx` once more per transaction of the block addressed to it.
   */
  lemma ProcessedBlockInflatesCounters(db: Db, chain: Chain, number: nat)
    requires Indexed(db, chain) && number < |chain.blocks|
    requires number in db.blocks && db.blocks[number].processed
    ensures var r := ProcessBlock(db, chain, number, NoFault);
      var txs := chain.blocks[number].txs;
      && r.blocks == db.blocks && r.txs == db.txs
      && r.contracts.Keys == db.contracts.Keys
      && forall c :: c in db.contracts ==>
           r.contracts[c].createdBlock == db.contracts[c].createdBlock &&
           r.contracts[c].creator == db.contracts[c].creator &&
           r.contracts[c].numTx == db.contracts[c].numTx + CountTo(txs, c)
  {
    var txs := chain.blocks[number].txs;
    assert Covers(db, chain, txs);
    assert txs[..|txs|] == txs;
    RewalkOnlyBumps(db, chain, number, txs);
    assert db.blocks[number := db.blocks[number].(processed := true)] == db.blocks;
    if txs == [] {
      forall c | c in db.contracts ensures CountTo(txs, c) == 0 {
      }
    }
  }

  /** The loop raises a contract that already exists by the number of walked transactions to it. */
  lemma {:induction false} WalkTxsBumps(db: Db, chain: Chain, number: nat, txs: seq<Tx>, c: Addr)
    requires c in db.contracts
    ensures var r := WalkTxs(db, chain, number, txs);
      c in r.contracts && r.contracts[c].numTx == db.contracts[c].numTx + CountTo(txs, c)
    decreases |txs|
  {
    if txs != [] {
      WalkTxsBumps(db, chain, number, txs[..|txs| - 1], c);
    }
  }

  /**
   `processBlock` raises a contract that already exists by the number of
   transactions to it among those the loop completed.
   */
  lemma ProcessBlockBumps(db: Db, chain: Chain, number: nat, fault: Fault, c: Addr)
    requires number < |chain.blocks| && fault != BlockFetchFails && c in db.contracts
    ensures var r := ProcessBlock(db, chain, number, fault);
      var txs := chain.blocks[number].txs;
      c in r.contracts &&
      r.contracts[c].numTx == db.contracts[c].numTx + CountTo(txs[..Completed(fault, |txs|)], c)
  {
    var txs := chain.blocks[number].txs;
    var added := if BlockInDb(db, number) then db else InsertBlock(db, number, |txs|);
    WalkTxsBumps(added, chain, number, txs[..Completed(fault, |txs|)], c);
  }

  /**
   The inflation `main` does reach: a block whose transaction `k` failed is
   retried from its first transaction, so every contract ends with the
   counts of a faultless pass plus the transactions to it among the first
   `k`, which are counted twice.
   */
  lemma RetryAfterFailureInflatesCounters(db: Db, chain: Chain, number: nat, k: nat, c: Addr)
    requires number < |chain.blocks| && k < |chain.blocks[number].txs| && c in db.contracts
    ensures var failed := ProcessBlock(db, chain, number, TxFetchFails(k));
      var retried := ProcessBlock(failed, chain, number, NoFault);
      var clean := ProcessBlock(db, chain, number, NoFault);
      c in retried.contracts && c in clean.contracts &&
      retried.contracts[c].numTx == clean.contracts[c].numTx + CountTo(chain.blocks[number].txs[..k], c)
  {
    var txs := chain.blocks[number].txs;
    var failed := ProcessBlock(db, chain, number, TxFetchFails(k));
    assert txs[..|txs|] == txs;
    ProcessBlockBumps(db, chain, number, TxFetchFails(k), c);
    ProcessBlockBumps(failed, chain, number, NoFault, c);
    ProcessBlockBumps(db, chain, number, NoFault, c);
  }

  // ---------------------------------------------------------------------
  // One run of `main`
  // ---------------------------------------------------------------------

  lemma {:induction false} ProcessAllKeeps(db: Db, chain: Chain, numbers: seq<nat>, faults: map<nat, Fault>)
    ensures var r := ProcessAll(db, chain, numbers, faults);
      RowsKept(db, r) && BlocksKept(db, r)
    decreases |numbers|
  {
    if numbers != [] {
      var init := numbers[..|numbers| - 1];
      var last := numbers[|numbers| - 1];
      ProcessAllKeeps(db, chain, init, faults);
      ProcessBlockKeeps(ProcessAll(db, chain, init, faults), chain, last, FaultAt(faults, last));
    }
  }

  /** Reprocessing blocks that are already stored adds no block row. */
  lemma {:induction false} RetriesKeepBlockKeys(db: Db, chain: Chain, numbers: seq<nat>, faults: map<nat, Fault>)
    requires forall i :: 0 <= i < |numbers| ==> numbers[i] in db.blocks
    ensures ProcessAll(db, chain, numbers, faults).blocks.Keys == db.blocks.Keys
    decreases |numbers|
  {
    if numbers != [] {
      var init := numbers[..|numbers| - 1];
      var last := numbers[|numbers| - 1];
      RetriesKeepBlockKeys(db, chain, init, faults);
      ProcessBlockKeeps(ProcessAll(db, chain, init, faults), chain, last, FaultAt(faults, last));
    }
  }

  /** `next_block` depends only on which block numbers are stored. */
  lemma NextBlockOfKeys(a: Db, b: Db)
    requires a.blocks.Keys == b.blocks.Keys
    ensures NextBlock(a) == NextBlock(b)
  {
  }

  /** The retry list holds exactly the unprocessed blocks with transactions, ascending. */
  lemma RetryListIsRetrySet(db: Db)
    ensures forall k: nat :: k in RetryList(db) <==> NeedsRetry(db, k)
    ensures forall i, j :: 0 <= i < j < |RetryList(db)| ==> RetryList(db)[i] < RetryList(db)[j]
  {
  }

  /**
   One run processes the retry set first, then every block number from one
   past the highest block stored BEFORE the run up to, not including, the
   head, in ascending order.
   */
  lemma RunSchedule(db: Db, chain: Chain, faults: map<nat, Fault>)
    ensures var retried := ProcessAll(db, chain, RetryList(db), faults);
      var scanned := Range(NextBlock(db), Head(chain));
      && Run(db, chain, faults) == ProcessAll(retried, chain, scanned, faults)
      && (forall i :: 0 <= i < |scanned| ==> NextBlock(db) <= scanned[i] < Head(chain))
      && (forall i, j :: 0 <= i < j < |scanned| ==> scanned[i] < scanned[j])
      && (forall k: nat :: NextBlock(db) <= k < Head(chain) ==> k in scanned)
  {
    var retry := RetryList(db);
    assert forall i :: 0 <= i < |retry| ==> retry[i] in retry;
    RetriesKeepBlockKeys(db, chain, retry, faults);
    NextBlockOfKeys(db, ProcessAll(db, chain, retry, faults));
    var scanned := Range(NextBlock(db), Head(chain));
    forall k: nat | NextBlock(db) <= k < Head(chain) ensures k in scanned {
      assert scanned[k - NextBlock(db)] == k;
    }
  }

  /** No run ever removes a row, rewrites a transaction or clears a processed flag. */
  lemma RunKeeps(db: Db, chain: Chain, faults: map<nat, Fault>)
    ensures RowsKept(db, Run(db, chain, faults)) && BlocksKept(db, Run(db, chain, faults))
  {
    var retried := ProcessAll(db, chain, RetryList(db), faults);
    ProcessAllKeeps(db, chain, RetryList(db), faults);
    ProcessAllKeeps(retried, chain, Range(NextBlock(retried), Head(chain)), faults);
  }

  // ---------------------------------------------------------------------
  // The processed-implies-indexed invariant
  // ---------------------------------------------------------------------

  /**
   Every block flagged processed has all of its transactions' rows in the
   tables (the invariant the `processed` column is meant to carry).
   */
  ghost predicate Indexed(db: Db, chain: Chain) {
    forall n: nat :: n in db.blocks && db.blocks[n].processed && n < |chain.blocks| ==>
      Covers(db, chain, chain.blocks[n].txs)
  }

  /** Rows once written stay written. */
  lemma CoversKept(a: Db, b: Db, chain: Chain, txs: seq<Tx>)
    requires RowsKept(a, b) && Covers(a, chain, txs)
    ensures Covers(b, chain, txs)
  {
    forall i | 0 <= i < |txs| ensures Seen(b, chain, txs[i]) {
      assert Seen(a, chain, txs[i]);
    }
  }

  /** `processBlock` preserves the invariant. */
  lemma ProcessBlockIndexed(db: Db, chain: Chain, number: nat, fault: Fault)
    requires Indexed(db, chain)
    ensures Indexed(ProcessBlock(db, chain, number, fault), chain)
  {
    var r := ProcessBlock(db, chain, number, fault);
    ProcessBlockKeeps(db, chain, number, fault);
    ProcessedFlag(db, chain, number, fault);
    forall n: nat | n in r.blocks && r.blocks[n].processed && n < |chain.blocks|
      ensures Covers(r, chain, chain.blocks[n].txs)
    {
      if n in db.blocks && db.blocks[n].processed {
        CoversKept(db, r, chain, chain.blocks[n].txs);
      } else {
        // Only `number` can have become processed, and only by walking all its transactions.
        assert n == number && fault != BlockFetchFails;
        var txs := chain.blocks[number].txs;
        var added := if BlockInDb(db, number) then db else InsertBlock(db, number, |txs|);
        assert txs[..|txs|] == txs;
        WalkTxsCovers(added, chain, number, txs);
      }
    }
  }

  /** So does any sequence of `processBlock` calls. */
  lemma {:induction false} ProcessAllIndexed(db: Db, chain: Chain, numbers: seq<nat>, faults: map<nat, Fault>)
    requires Indexed(db, chain)
    ensures Indexed(ProcessAll(db, chain, numbers, faults), chain)
    decreases |numbers|
  {
    if numbers != [] {
      var init := numbers[..|numbers| - 1];
      var last := numbers[|numbers| - 1];
      ProcessAllIndexed(db, chain, init, faults);
      ProcessBlockIndexed(ProcessAll(db, chain, init, faults), chain, last, FaultAt(faults, last));
    }
  }

  /** A run keeps the invariant; it holds of a new, empty store. */
  lemma RunIndexed(db: Db, chain: Chain, faults: map<nat, Fault>)
    requires Indexed(db, chain)
    ensures Indexed(Run(db, chain, faults), chain)
    ensures Indexed(Empty, chain)
  {
    var retried := ProcessAll(db, chain, RetryList(db), faults);
    ProcessAllIndexed(db, chain, RetryList(db), faults);
    ProcessAllIndexed(retried, chain, Range(NextBlock(retried), Head(chain)), faults);
  }
}
