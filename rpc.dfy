/**
 What the indexer reads from the chain node, as one immutable value: the
 blocks from genesis up to the head, each with its transactions, the
 transaction details and receipts, and the set of addresses whose code is
 non-empty. RPC failures are a separate `Fault` input.
 */
module Rpc {
  import opened Tables

  datatype Option<T> = None | Some(value: T)

  /**
   One transaction: its hash, `from`, the declared `to` (None for a contract
   creation), and the receipt's `contractAddress`, which is only read when `to`
   is None.
   */
  datatype Tx = Tx(hash: TxId, sender: Addr, to: Option<Addr>, contractAddress: Addr)

  datatype Block = Block(txs: seq<Tx>)

  /**
   The chain as the node sees it: `blocks[n]` is block number n and the last
   one is the head returned by `get_block('latest')`; `code` holds the
   addresses for which `get_code` is not `0x`.
   */
  datatype Chain = Chain(blocks: seq<Block>, code: set<Addr>)

  /**
   Where one `processBlock` call raises: at `get_block`, or at one of the RPC
   calls (`getTransaction`, `getTransactionReceipt`, `get_code`) for the
   transaction at `index`. All of those are issued before that transaction
   writes anything.
   */
  datatype Fault = NoFault | BlockFetchFails | TxFetchFails(index: nat)

  /** The address `processBlock` files the transaction under: `to`, or the deployed address. */
  function Recipient(tx: Tx): (r: Addr)
    ensures tx.to.Some? ==> r == tx.to.value
    ensures tx.to.None? ==> r == tx.contractAddress
  {
    match tx.to
    case Some(to) => to
    case None => tx.contractAddress
  }

  /** The head block number `latest_block.number`; -1 stands for a node with no blocks. */
  function Head(chain: Chain): int {
    |chain.blocks| - 1
  }

  /** The fault injected into the `processBlock` call for block `number`. */
  function FaultAt(faults: map<nat, Fault>, number: nat): Fault {
    if number in faults then faults[number] else NoFault
  }
}
