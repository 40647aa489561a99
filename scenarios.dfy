/**
 Three concrete runs of `main`, worked out on small chains: a fresh scan, a
 resumed block, and a contract discovered by its code.
 */
module Scenarios {
  import opened Tables
  import opened Rpc
  import opened Scan
  import Proofs

  /** On an empty store a run is a scan of `range(0, head)`. */
  lemma EmptyStoreScansFromZero(chain: Chain, faults: map<nat, Fault>)
    ensures Run(Empty, chain, faults) == ProcessAll(Empty, chain, Range(0, Head(chain)), faults)
  {
    assert NextBlock(Empty) == 0;
    assert RetryList(Empty) == [];
    Proofs.RunSchedule(Empty, chain, faults);
  }

  /** A new block without transactions is inserted and flagged at once. */
  lemma EmptyBlockStep(db: Db, chain: Chain, n: nat)
    requires n < |chain.blocks| && chain.blocks[n].txs == [] && n !in db.blocks
    ensures ProcessBlock(db, chain, n, NoFault) == db.(blocks := db.blocks[n := BlockRow(0, true)])
  {
    Proofs.EmptyBlockShortcut(db, chain, n, NoFault);
  }

  /**
   A new block whose one transaction goes to an unknown address without code
   adds the block, flagged, and one transaction row; no contract row.
   */
  lemma PlainTransferStep(db: Db, chain: Chain, n: nat)
    requires n < |chain.blocks| && |chain.blocks[n].txs| == 1 && n !in db.blocks
    requires var t := chain.blocks[n].txs[0];
      t.to.Some? && t.to.value !in chain.code && t.to.value !in db.contracts && t.hash !in db.txs
    ensures var t := chain.blocks[n].txs[0];
      ProcessBlock(db, chain, n, NoFault)
        == Db(db.blocks[n := BlockRow(1, true)], db.contracts, db.txs[t.hash := TxRow(n, t.sender, t.to.value)])
  {
    var txs := chain.blocks[n].txs;
    assert txs[..1] == txs && txs[..0] == [];
    var added := InsertBlock(db, n, 1);
    assert WalkTxs(added, chain, n, txs) == ClassifyTx(added, chain, n, txs[0]);
  }

  /** Scanning blocks 0 and 1, both empty, from an empty store flags both. */
  lemma TwoEmptyBlocks(chain: Chain)
    requires |chain.blocks| >= 2 && chain.blocks[0].txs == [] && chain.blocks[1].txs == []
    ensures ProcessAll(Empty, chain, [0, 1], map[])
         == Db(map[0 := BlockRow(0, true), 1 := BlockRow(0, true)], map[], map[])
  {
    ProcessAllSnoc(Empty, chain, [], 0, map[]);
    EmptyBlockStep(Empty, chain, 0);
    var db0 := Empty.(blocks := map[0 := BlockRow(0, true)]);
    ProcessAllSnoc(Empty, chain, [0], 1, map[]);
    EmptyBlockStep(db0, chain, 1);
    assert [] + [0] == [0] && [0] + [1] == [0, 1];
  }

  /**
   Empty store, head 3: blocks 0 and 1 have no transactions, block 2 has one
   to an address without code. Blocks 0-2 end up processed, the head block 3
   is not scanned, one transaction row and no contract row are written.
   */
  lemma FreshScan(chain: Chain)
    requires |chain.blocks| == 4 && chain.blocks[0].txs == [] && chain.blocks[1].txs == []
    requires |chain.blocks[2].txs| == 1
    requires chain.blocks[2].txs[0].to.Some? && chain.blocks[2].txs[0].to.value !in chain.code
    ensures var t := chain.blocks[2].txs[0];
      Run(Empty, chain, map[])
        == Db(map[0 := BlockRow(0, true), 1 := BlockRow(0, true), 2 := BlockRow(1, true)],
              map[],
              map[t.hash := TxRow(2, t.sender, t.to.value)])
  {
    EmptyStoreScansFromZero(chain, map[]);
    assert Range(0, Head(chain)) == [0, 1] + [2];
    TwoEmptyBlocks(chain);
    ProcessAllSnoc(Empty, chain, [0, 1], 2, map[]);
    var db1 := Db(map[0 := BlockRow(0, true), 1 := BlockRow(0, true)], map[], map[]);
    PlainTransferStep(db1, chain, 2);
  }

  /**
   A block whose fetch fails on a fresh store is never written, so it is not
   in the retry set; once block 1 is stored, `next_block` has moved past it
   and no later run scans it again.
   */
  lemma FetchFailureSkipped(chain: Chain)
    requires |chain.blocks| == 3 && chain.blocks[1].txs == []
    ensures var r := Run(Empty, chain, map[0 := BlockFetchFails]);
      0 !in r.blocks && 0 !in RetryList(r) && NextBlock(r) == 2
  {
    var faults := map[0 := BlockFetchFails];
    EmptyStoreScansFromZero(chain, faults);
    assert Range(0, Head(chain)) == [] + [0] + [1];
    ProcessAllSnoc(Empty, chain, [], 0, faults);
    ProcessAllSnoc(Empty, chain, [0], 1, faults);
    assert ProcessAll(Empty, chain, [0], faults) == Empty;
    EmptyBlockStep(Empty, chain, 1);
    var r := Empty.(blocks := map[1 := BlockRow(0, true)]);
    assert NextBlock(r) == 2 by {
      assert 1 in r.blocks;
      assert NextBlock(r) - 1 in r.blocks;
    }
  }

  lemma NoRetryBelow(db: Db, bound: nat)
    requires forall k: nat :: k < bound ==> !NeedsRetry(db, k)
    ensures RetryBelow(db, bound) == []
  {
  }

  /**
   On a store whose only block is an unprocessed block 5 with transactions and
   a chain whose head is block 5, a run is one `processBlock(5)`.
   */
  lemma OnlyBlockFiveRetried(db: Db, chain: Chain)
    requires db.blocks == map[5 := BlockRow(2, false)] && |chain.blocks| == 6
    ensures Run(db, chain, map[]) == ProcessBlock(db, chain, 5, NoFault)
  {
    assert NextBlock(db) == 6 by {
      assert 5 in db.blocks;
      assert NextBlock(db) - 1 in db.blocks;
    }
    NoRetryBelow(db, 5);
    assert RetryList(db) == [5];
    Proofs.RunSchedule(db, chain, map[]);
    assert [5][..0] == [];
  }

  /** Processing block 5 of such a store flags it and adds no other block. */
  lemma BlockFiveFlagged(chain: Chain, db: Db)
    requires |chain.blocks| == 6 && |chain.blocks[5].txs| == 2
    requires db.blocks == map[5 := BlockRow(2, false)]
    ensures ProcessBlock(db, chain, 5, NoFault).blocks == map[5 := BlockRow(2, true)]
  {
    var r := ProcessBlock(db, chain, 5, NoFault);
    Proofs.ProcessedFlag(db, chain, 5, NoFault);
    Proofs.ProcessBlockKeeps(db, chain, 5, NoFault);
    assert r.blocks.Keys == {5};
    assert r.blocks[5] == BlockRow(2, true);
  }

  /** Processing block 5 of such a store writes exactly the block's two transaction rows. */
  lemma BlockFiveRows(chain: Chain, db: Db)
    requires |chain.blocks| == 6 && |chain.blocks[5].txs| == 2
    requires chain.blocks[5].txs[0].hash != chain.blocks[5].txs[1].hash
    requires db.txs == map[]
    ensures var x, y := chain.blocks[5].txs[0], chain.blocks[5].txs[1];
      ProcessBlock(db, chain, 5, NoFault).txs
        == map[x.hash := TxRow(5, x.sender, Recipient(x)), y.hash := TxRow(5, y.sender, Recipient(y))]
  {
    var txs := chain.blocks[5].txs;
    var r := ProcessBlock(db, chain, 5, NoFault);
    Proofs.CompleteBlockIndexed(db, chain, 5);
    assert Proofs.FirstWithHash(txs, 0) && Proofs.FirstWithHash(txs, 1);
    var added := if BlockInDb(db, 5) then db else InsertBlock(db, 5, |txs|);
    forall t | t in r.txs ensures t == txs[0].hash || t == txs[1].hash {
      assert txs[..|txs|] == txs;
      Proofs.WalkTxsKeysFrom(added, chain, 5, txs, t);
    }
  }

  /**
   A store holding only block 5 as `{num_txs: 2, processed: false}` and no
   transaction rows, as a crash inside block 5 leaves it, on a chain whose
   head is block 5 with two transactions of distinct hashes: the run
   retries block 5, writes exactly its two transaction rows and flags it
   processed; nothing else is scanned.
   */
  lemma ResumeBlock(chain: Chain, db: Db)
    requires |chain.blocks| == 6 && |chain.blocks[5].txs| == 2
    requires chain.blocks[5].txs[0].hash != chain.blocks[5].txs[1].hash
    requires db.blocks == map[5 := BlockRow(2, false)] && db.txs == map[]
    ensures var x, y := chain.blocks[5].txs[0], chain.blocks[5].txs[1];
      var r := Run(db, chain, map[]);
      && r.blocks == map[5 := BlockRow(2, true)]
      && r.txs == map[x.hash := TxRow(5, x.sender, Recipient(x)), y.hash := TxRow(5, y.sender, Recipient(y))]
  {
    OnlyBlockFiveRetried(db, chain);
    BlockFiveFlagged(chain, db);
    BlockFiveRows(chain, db);
  }

  /**
   Block 0 holds one transaction to `A`, whose code is non-empty: the run
   registers `A` as created in block 0 by itself, with `num_tx` 2 (the insert
   sets 1 and the transaction's own increment adds 1).
   */
  lemma DiscoveredContract()
    ensures var t := Tx("t", "s", Some("A"), "");
      var chain := Chain([Block([t]), Block([])], {"A"});
      Run(Empty, chain, map[])
        == Db(map[0 := BlockRow(1, true)], map["A" := ContractRow(0, "A", 2)], map["t" := TxRow(0, "s", "A")])
  {
    var t := Tx("t", "s", Some("A"), "");
    var chain := Chain([Block([t]), Block([])], {"A"});
    assert NextBlock(Empty) == 0;
    assert RetryList(Empty) == [];
    assert Range(0, Head(chain)) == [0];
    assert [0][..0] == [] && [t][..1] == [t] && [t][..0] == [];
  }
}
