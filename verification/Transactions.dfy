/** Transactions as the ledger and the state machine see them. */
module Transactions {
  import opened Tree

  type Addr = string

  /** One spent output: its key, and the amount and frozen height the spender declares for it. */
  datatype TxInput = TxInput(addr: Addr, refTxid: Hash, refOffset: nat, amount: nat, frozen: int)

  datatype TxOutput = TxOutput(addr: Addr, amount: nat, frozen: int)

  datatype Tx = Tx(txid: Hash, inputs: seq<TxInput>, outputs: seq<TxOutput>, coinbase: bool, autogen: bool)

  /** A block as received, before the ledger gives it a height and a place. */
  datatype Block = Block(id: Hash, pre: Hash, next: Hash, proposer: Addr, txs: seq<Tx>)

  function Txids(txs: seq<Tx>): (ids: seq<Hash>)
    ensures |ids| == |txs| && forall i :: 0 <= i < |txs| ==> ids[i] == txs[i].txid
  {
    seq(|txs|, i requires 0 <= i < |txs| => txs[i].txid)
  }
}
