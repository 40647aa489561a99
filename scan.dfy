/**
 The indexer's decisions as functions of the table contents: what one
 transaction, one block and one scan pass do to the three tables. The `Store`
 class in module Indexer performs the same steps in place and is proved to
 end in exactly these states.
 */
module Scan {
  import opened Tables
  import opened Rpc

  /**
   One iteration of the transaction loop of `processBlock`: a creation
   registers the deployed contract with the sender as creator; a recipient
   not yet known as a contract is registered, with itself as creator, when
   its code is non-empty; then `addTx` runs.
   */
  function ClassifyTx(db: Db, chain: Chain, number: nat, tx: Tx): Db {
    var to := Recipient(tx);
    var created := if tx.to.None? then InsertContract(db, to, number, tx.sender) else db;
    var discovered :=
      if !ContractInDb(created, to) && to in chain.code then InsertContract(created, to, number, to)
      else created;
    InsertTx(discovered, tx.hash, number, tx.sender, to)
  }

  /** The tables after the transaction loop has walked `txs` in order. */
  function WalkTxs(db: Db, chain: Chain, number: nat, txs: seq<Tx>): Db
    decreases |txs|
  {
    if txs == [] then db
    else ClassifyTx(WalkTxs(db, chain, number, txs[..|txs| - 1]), chain, number, txs[|txs| - 1])
  }

  /** Walking one more transaction extends `WalkTxs` by one `ClassifyTx`. */
  lemma WalkTxsSnoc(db: Db, chain: Chain, number: nat, txs: seq<Tx>, i: nat)
    requires i < |txs|
    ensures WalkTxs(db, chain, number, txs[..i + 1])
         == ClassifyTx(WalkTxs(db, chain, number, txs[..i]), chain, number, txs[i])
  {
    assert txs[..i + 1][..i] == txs[..i];
  }

  /** How many of `count` transactions the loop completes under `fault`. */
  function Completed(fault: Fault, count: nat): (done: nat)
    ensures done <= count
    ensures done < count <==> fault.TxFetchFails? && fault.index < count
  {
    if fault.TxFetchFails? && fault.index < count then fault.index else count
  }

  /**
   The `block_tx_count > 0` branch of `processBlock`: walk the transactions
   until done or until a fault, and flag the block only if the loop ran to
   the end.
   */
  function WalkBlock(db: Db, chain: Chain, number: nat, txs: seq<Tx>, fault: Fault): Db {
    var done := Completed(fault, |txs|);
    var walked := WalkTxs(db, chain, number, txs[..done]);
    if done == |txs| then MarkProcessed(walked, number) else walked
  }

  /**
   `processBlock(number)`, the bare `except` included: a failure leaves
   whatever was written before it and skips the processed flag.
   */
  function ProcessBlock(db: Db, chain: Chain, number: nat, fault: Fault): Db {
    if number >= |chain.blocks| || fault == BlockFetchFails then db
    else
      var txs := chain.blocks[number].txs;
      var added := if BlockInDb(db, number) then db else InsertBlock(db, number, |txs|);
      if |txs| > 0 then WalkBlock(added, chain, number, txs, fault)
      else MarkProcessed(added, number)
  }

  /** `processBlock` applied to each number of `numbers` in order. */
  function ProcessAll(db: Db, chain: Chain, numbers: seq<nat>, faults: map<nat, Fault>): Db
    decreases |numbers|
  {
    if numbers == [] then db
    else
      var last := numbers[|numbers| - 1];
      ProcessBlock(ProcessAll(db, chain, numbers[..|numbers| - 1], faults), chain, last, FaultAt(faults, last))
  }

  /** Processing one more block number extends `ProcessAll` by one `ProcessBlock`. */
  lemma ProcessAllSnoc(db: Db, chain: Chain, numbers: seq<nat>, n: nat, faults: map<nat, Fault>)
    ensures ProcessAll(db, chain, numbers + [n], faults)
         == ProcessBlock(ProcessAll(db, chain, numbers, faults), chain, n, FaultAt(faults, n))
  {
    assert (numbers + [n])[..|numbers|] == numbers;
  }

  /** Every non-empty set of block numbers has a highest element. */
  lemma {:induction false} HighestExists(keys: set<nat>)
    requires keys != {}
    ensures exists m :: m in keys && forall k :: k in keys ==> k <= m
  {
    var x :| x in keys;
    var rest := keys - {x};
    if rest == {} {
      forall k | k in keys ensures k <= x {
        assert k !in rest;
      }
    } else {
      HighestExists(rest);
      var m :| m in rest && forall k :: k in rest ==> k <= m;
      var top := if x <= m then m else x;
      assert forall k :: k in keys ==> k == x || k in rest;
      assert top in keys;
    }
  }

  /**
   `next_block` of `main`: one past the highest stored block number, or 0 when
   the blocks table is empty.
   */
  ghost function NextBlock(db: Db): (r: nat)
    ensures forall k :: k in db.blocks ==> k < r
    ensures r == 0 || r - 1 in db.blocks
  {
    if db.blocks.Keys == {} then 0
    else
      HighestExists(db.blocks.Keys);
      var m :| m in db.blocks.Keys && forall k :: k in db.blocks.Keys ==> k <= m;
      m + 1
  }

  /** A row of the retry set: not processed and with a non-zero transaction count. */
  predicate NeedsRetry(db: Db, k: nat) {
    k in db.blocks && !db.blocks[k].processed && db.blocks[k].numTxs != 0
  }

  /** The retry-set numbers below `bound`, ascending. */
  function RetryBelow(db: Db, bound: nat): (r: seq<nat>)
    ensures forall k: nat :: k in r <==> k < bound && NeedsRetry(db, k)
    ensures forall i, j :: 0 <= i < j < |r| ==> r[i] < r[j]
  {
    if bound == 0 then []
    else
      var below := RetryBelow(db, bound - 1);
      assert forall i :: 0 <= i < |below| ==> below[i] in below;
      below + (if NeedsRetry(db, bound - 1) then [bound - 1] else [])
  }

  /** The `blocks` list `main` builds from its retry query, in key order. */
  ghost function RetryList(db: Db): seq<nat> {
    RetryBelow(db, NextBlock(db))
  }

  /** `range(lo, hi)`. */
  function Range(lo: nat, hi: int): (r: seq<nat>)
    ensures |r| == if lo < hi then hi - lo else 0
    ensures forall i :: 0 <= i < |r| ==> r[i] == lo + i
  {
    if lo < hi then seq(hi - lo, i requires 0 <= i < hi - lo => lo + i) else []
  }

  /**
   One call of `main`: reprocess the retry set, then scan from one past the
   highest stored block up to, not including, the head.
   */
  ghost function Run(db: Db, chain: Chain, faults: map<nat, Fault>): Db {
    var retried := ProcessAll(db, chain, RetryList(db), faults);
    ProcessAll(retried, chain, Range(NextBlock(retried), Head(chain)), faults)
  }
}
