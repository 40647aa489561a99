/**
 The three tables the indexer writes (`blocks`, `contracts`, `transactions`)
 as maps keyed by their primary keys, and the row-level statements it issues
 against them. Every insert is SQLite's `INSERT OR IGNORE`: a row whose key is
 already present is left exactly as it was.
 */
module Tables {

  type Addr = string
  type TxId = string

  /** A row of `blocks`: `num_txs` and `processed` (column default false). */
  datatype BlockRow = BlockRow(numTxs: nat, processed: bool)

  /** A row of `contracts`: `created_block`, `creator_address`, `num_tx`. */
  datatype ContractRow = ContractRow(createdBlock: nat, creator: Addr, numTx: nat)

  /** A row of `transactions`: `block`, `from_address`, `to_address`. */
  datatype TxRow = TxRow(block: nat, sender: Addr, to: Addr)

  /** The contents of the three tables at one moment. */
  datatype Db = Db(blocks: map<nat, BlockRow>, contracts: map<Addr, ContractRow>, txs: map<TxId, TxRow>)

  const Empty: Db := Db(map[], map[], map[])

  /** `blockInDb`: is there a row with this block number? */
  predicate BlockInDb(db: Db, number: nat) {
    number in db.blocks
  }

  /** `contractInDb`: is there a row with this contract address? */
  predicate ContractInDb(db: Db, address: Addr) {
    address in db.contracts
  }

  /** `blockInDb` holds exactly when `addBlock` of that number would be ignored. */
  lemma BlockInDbIffAddIgnored(db: Db, number: nat, numTxs: nat)
    ensures BlockInDb(db, number) <==> InsertBlock(db, number, numTxs) == db
  {
    if !BlockInDb(db, number) {
      assert number in InsertBlock(db, number, numTxs).blocks;
    }
  }

  /** `contractInDb` holds exactly when `addContract` of that address would be ignored. */
  lemma ContractInDbIffAddIgnored(db: Db, address: Addr, block: nat, creator: Addr)
    ensures ContractInDb(db, address) <==> InsertContract(db, address, block, creator) == db
  {
    if !ContractInDb(db, address) {
      assert address in InsertContract(db, address, block, creator).contracts;
    }
  }

  /** `addBlock`: insert-or-ignore of `{number, num_txs}`, processed taking its default. */
  function InsertBlock(db: Db, number: nat, numTxs: nat): (r: Db)
    ensures r.blocks.Keys == db.blocks.Keys + {number}
    ensures forall k :: k in db.blocks ==> r.blocks[k] == db.blocks[k]
    ensures number !in db.blocks ==> r.blocks[number] == BlockRow(numTxs, false)
    ensures r.contracts == db.contracts && r.txs == db.txs
  {
    if number in db.blocks then db
    else db.(blocks := db.blocks[number := BlockRow(numTxs, false)])
  }

  /** `addContract`: insert-or-ignore of a contract row whose counter starts at 1. */
  function InsertContract(db: Db, address: Addr, block: nat, creator: Addr): (r: Db)
    ensures r.contracts.Keys == db.contracts.Keys + {address}
    ensures forall a :: a in db.contracts ==> r.contracts[a] == db.contracts[a]
    ensures address !in db.contracts ==> r.contracts[address] == ContractRow(block, creator, 1)
    ensures r.blocks == db.blocks && r.txs == db.txs
  {
    if address in db.contracts then db
    else db.(contracts := db.contracts[address := ContractRow(block, creator, 1)])
  }

  /** The contracts table after `UPDATE contracts SET num_tx = num_tx + 1 WHERE address = to`. */
  function Bumped(contracts: map<Addr, ContractRow>, to: Addr): map<Addr, ContractRow> {
    if to in contracts then contracts[to := contracts[to].(numTx := contracts[to].numTx + 1)]
    else contracts
  }

  /**
   `addTx`: insert-or-ignore of the transaction row, followed by an
   UNCONDITIONAL increment of the recipient contract's counter (no row is
   touched when the recipient is not a contract).
   */
  function InsertTx(db: Db, txid: TxId, block: nat, sender: Addr, to: Addr): (r: Db)
    ensures r.txs.Keys == db.txs.Keys + {txid}
    ensures forall t :: t in db.txs ==> r.txs[t] == db.txs[t]
    ensures txid !in db.txs ==> r.txs[txid] == TxRow(block, sender, to)
    ensures r.contracts.Keys == db.contracts.Keys
    ensures forall a :: a in db.contracts ==>
      r.contracts[a].createdBlock == db.contracts[a].createdBlock &&
      r.contracts[a].creator == db.contracts[a].creator &&
      r.contracts[a].numTx == db.contracts[a].numTx + (if a == to then 1 else 0)
    ensures r.blocks == db.blocks
  {
    var txs := if txid in db.txs then db.txs else db.txs[txid := TxRow(block, sender, to)];
    Db(db.blocks, Bumped(db.contracts, to), txs)
  }

  /** `UPDATE blocks SET processed = true WHERE number = number`. */
  function MarkProcessed(db: Db, number: nat): (r: Db)
    ensures r.blocks.Keys == db.blocks.Keys
    ensures forall k :: k in db.blocks ==>
      r.blocks[k].numTxs == db.blocks[k].numTxs &&
      (r.blocks[k].processed <==> k == number || db.blocks[k].processed)
    ensures r.contracts == db.contracts && r.txs == db.txs
  {
    if number in db.blocks then db.(blocks := db.blocks[number := db.blocks[number].(processed := true)])
    else db
  }
}
