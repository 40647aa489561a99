/**
 The indexer's database connection as an object: the three tables and the
 `user_version` pragma are fields that the operations of `indexer.py` update
 in place. Each operation is proved to leave the tables in the state that
 module Scan (or Tables) prescribes.
 */
module Indexer {
  import opened Tables
  import opened Rpc
  import Scan
  import Schema

  class Store {
    var blocks: map<nat, BlockRow>
    var contracts: map<Addr, ContractRow>
    var txs: map<TxId, TxRow>
    var userVersion: nat

    /** The three tables as one value. */
    function Snapshot(): Db
      reads this
    {
      Db(blocks, contracts, txs)
    }

    /** A new SQLite file: empty tables and `user_version` 0. */
    constructor ()
      ensures Snapshot() == Empty && userVersion == 0
    {
      blocks, contracts, txs := map[], map[], map[];
      userVersion := 0;
    }

    /** `blockInDb`: a row with this number is stored. */
    predicate BlockInDb(number: nat): (r: bool)
      reads this
      ensures r <==> number in blocks
    {
      Tables.BlockInDb(Snapshot(), number)
    }

    /** `contractInDb`: a row with this address is stored. */
    predicate ContractInDb(address: Addr): (r: bool)
      reads this
      ensures r <==> address in contracts
    {
      Tables.ContractInDb(Snapshot(), address)
    }

    method AddBlock(number: nat, numTxs: nat)
      modifies this
      ensures Snapshot() == InsertBlock(old(Snapshot()), number, numTxs)
      ensures userVersion == old(userVersion)
    {
      if number !in blocks {
        blocks := blocks[number := BlockRow(numTxs, false)];
      }
    }

    method AddContract(address: Addr, block: nat, creator: Addr)
      modifies this
      ensures Snapshot() == InsertContract(old(Snapshot()), address, block, creator)
      ensures userVersion == old(userVersion)
    {
      if address !in contracts {
        contracts := contracts[address := ContractRow(block, creator, 1)];
      }
    }

    method AddTx(txid: TxId, block: nat, sender: Addr, to: Addr)
      modifies this
      ensures Snapshot() == InsertTx(old(Snapshot()), txid, block, sender, to)
      ensures userVersion == old(userVersion)
    {
      if txid !in txs {
        txs := txs[txid := TxRow(block, sender, to)];
      }
      if to in contracts {
        contracts := contracts[to := contracts[to].(numTx := contracts[to].numTx + 1)];
      }
    }

    method SetProcessed(number: nat)
      modifies this
      ensures Snapshot() == MarkProcessed(old(Snapshot()), number)
      ensures userVersion == old(userVersion)
    {
      if number in blocks {
        blocks := blocks[number := blocks[number].(processed := true)];
      }
    }

    /**
     One pass of the transaction loop of `processBlock`: resolve the
     recipient, register a created or code-bearing contract, then `addTx`.
     */
    method IndexTx(chain: Chain, number: nat, tx: Tx)
      modifies this
      ensures Snapshot() == Scan.ClassifyTx(old(Snapshot()), chain, number, tx)
      ensures userVersion == old(userVersion)
    {
      var toAddress: Addr;
      if tx.to.None? {
        toAddress := tx.contractAddress;
        AddContract(toAddress, number, tx.sender);
      } else {
        toAddress := tx.to.value;
      }
      if !ContractInDb(toAddress) {
        if toAddress in chain.code {
          AddContract(toAddress, number, toAddress);
        }
      }
      AddTx(tx.hash, number, tx.sender, toAddress);
    }

    /** `processBlock`: a raised fault returns early, as the bare `except` does. */
    method ProcessBlock(chain: Chain, number: nat, fault: Fault)
      modifies this
      ensures Snapshot() == Scan.ProcessBlock(old(Snapshot()), chain, number, fault)
      ensures userVersion == old(userVersion)
    {
      if number >= |chain.blocks| || fault == BlockFetchFails {
        return;
      }
      var block := chain.blocks[number];
      var blockTxCount := |block.txs|;
      if !BlockInDb(number) {
        AddBlock(number, blockTxCount);
      }
      if blockTxCount > 0 {
        WalkBlock(chain, number, block.txs, fault);
      } else {
        SetProcessed(number);
      }
    }

    /**
     The transaction loop of `processBlock` and the flag update after it. A
     fault returns at once, which skips the rest of `processBlock` too.
     */
    method WalkBlock(chain: Chain, number: nat, txs: seq<Tx>, fault: Fault)
      modifies this
      ensures Snapshot() == Scan.WalkBlock(old(Snapshot()), chain, number, txs, fault)
      ensures userVersion == old(userVersion)
    {
      var count := 0;
      while count < |txs|
        invariant count <= |txs|
        invariant fault.TxFetchFails? ==> count <= fault.index
        invariant Snapshot() == Scan.WalkTxs(old(Snapshot()), chain, number, txs[..count])
        invariant userVersion == old(userVersion)
      {
        if fault == TxFetchFails(count) {
          return;
        }
        IndexTx(chain, number, txs[count]);
        Scan.WalkTxsSnoc(old(Snapshot()), chain, number, txs, count);
        count := count + 1;
      }
      assert txs[..count] == txs;
      if count == |txs| {
        SetProcessed(number);
      }
    }

    /** `ORDER BY number DESC LIMIT 1`: the highest stored block number, if any. */
    method HighestBlock() returns (highest: Option<nat>)
      ensures highest.None? <==> blocks == map[]
      ensures highest.Some? ==> highest.value in blocks && forall k :: k in blocks ==> k <= highest.value
    {
      highest := None;
      var rest := blocks.Keys;
      while rest != {}
        invariant rest <= blocks.Keys
        invariant highest.None? <==> rest == blocks.Keys
        invariant highest.Some? ==> highest.value in blocks
        invariant highest.Some? ==> forall k :: k in blocks && k !in rest ==> k <= highest.value
        decreases rest
      {
        var k :| k in rest;
        if highest.None? || highest.value < k {
          highest := Some(k);
        }
        rest := rest - {k};
      }
    }

    /** `next_block`: one past the highest block, 0 when `fetchone()` yields no row. */
    method NextBlockNumber() returns (next: nat)
      ensures next == Scan.NextBlock(Snapshot())
    {
      var highest := HighestBlock();
      next := if highest.Some? then highest.value + 1 else 0;
    }

    /** The retry query of `main`, copied into the `blocks` list in key order. */
    method UnprocessedBlocks() returns (list: seq<nat>)
      ensures list == Scan.RetryList(Snapshot())
    {
      var bound := NextBlockNumber();
      list := [];
      var n := 0;
      while n < bound
        invariant n <= bound
        invariant list == Scan.RetryBelow(Snapshot(), n)
      {
        if Scan.NeedsRetry(Snapshot(), n) {
          list := list + [n];
        }
        n := n + 1;
      }
    }

    /** `main`: the retry set first, then `range(next_block, latest)`. */
    method Run(chain: Chain, faults: map<nat, Fault>)
      modifies this
      ensures Snapshot() == Scan.Run(old(Snapshot()), chain, faults)
      ensures userVersion == old(userVersion)
    {
      var retry := UnprocessedBlocks();
      ProcessEach(chain, retry, faults);
      var nextBlock := NextBlockNumber();
      var latest := Head(chain);
      ProcessEach(chain, Scan.Range(nextBlock, latest), faults);
    }

    /** The two `for ... : processBlock(i)` loops of `main`. */
    method ProcessEach(chain: Chain, numbers: seq<nat>, faults: map<nat, Fault>)
      modifies this
      ensures Snapshot() == Scan.ProcessAll(old(Snapshot()), chain, numbers, faults)
      ensures userVersion == old(userVersion)
    {
      var i := 0;
      while i < |numbers|
        invariant i <= |numbers|
        invariant Snapshot() == Scan.ProcessAll(old(Snapshot()), chain, numbers[..i], faults)
        invariant userVersion == old(userVersion)
      {
        ProcessBlock(chain, numbers[i], FaultAt(faults, numbers[i]));
        assert numbers[..i + 1] == numbers[..i] + [numbers[i]];
        Scan.ProcessAllSnoc(old(Snapshot()), chain, numbers[..i], numbers[i], faults);
        i := i + 1;
      }
      assert numbers[..i] == numbers;
    }

    /** The `user_version` logic of `check_sql_engine`; `version` is read once. */
    method Migrate()
      modifies this
      ensures userVersion == Schema.Startup(old(userVersion))
      ensures Snapshot() == old(Snapshot())
    {
      var version := userVersion;
      if version == 0 {
        userVersion := 1;
      }
      if version == 1 {
        userVersion := 2;
      }
    }
  }
}
