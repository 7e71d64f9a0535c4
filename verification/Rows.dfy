/** The values the index stores: outpoints, coins, spends, transactions and blocks. */
module Rows {

  datatype Option<+T> = None | Some(value: T)

  type byte = x: int | 0 <= x < 0x100
  type uint32 = x: int | 0 <= x < 0x1_0000_0000

  /** A 32-byte digest. How it is computed is foreign to the index. */
  type Hash = h: seq<byte> | |h| == 32 witness seq(32, i => 0)

  /** A sidechain address; an opaque key as far as the index is concerned. */
  type Address = seq<byte>

  // Outpoint kinds: the borsh enum discriminants.
  const KIND_REGULAR: byte := 0
  const KIND_COINBASE: byte := 1
  const KIND_DEPOSIT: byte := 2
  const KIND_MARKET_FUNDS: byte := 3
  const KIND_PAYOUT: byte := 4

  // How an output left the UTXO set.
  const SPEND_REGULAR: byte := 0
  const SPEND_WITHDRAWAL: byte := 1
  const SPEND_MARKET: byte := 2

  datatype OutPoint = OutPoint(kind: byte, source: Hash, vout: uint32)

  datatype Coin = Coin(address: Address, value: int, content: string, contentType: string)

  datatype Output = Output(outpoint: OutPoint, coin: Coin, heightExact: bool)

  datatype Spend = Spend(outpoint: OutPoint, source: Hash, kind: byte, vin: uint32)

  datatype Tx = Tx(txid: Hash, index: nat, size: nat, raw: seq<byte>)

  /** Everything one block writes. */
  datatype Block = Block(
    height: nat,
    hash: Hash,
    prev: Option<Hash>,
    merkleRoot: Hash,
    mainHash: Hash,
    txs: seq<Tx>,
    creates: seq<Output>,
    spends: seq<Spend>)

  /** One unconfirmed set, as one sync pass reads it. */
  datatype Pool = Pool(txs: seq<Tx>, creates: seq<Output>, spends: seq<Spend>)

  function Txids(txs: seq<Tx>): set<Hash> {
    set i | 0 <= i < |txs| :: txs[i].txid
  }

  function Created(creates: seq<Output>): set<OutPoint> {
    set i | 0 <= i < |creates| :: creates[i].outpoint
  }

  function Consumed(spends: seq<Spend>): set<OutPoint> {
    set i | 0 <= i < |spends| :: spends[i].outpoint
  }

  predicate DistinctTxids(txs: seq<Tx>) {
    forall i, j | 0 <= i < j < |txs| :: txs[i].txid != txs[j].txid
  }

  predicate DistinctCreates(creates: seq<Output>) {
    forall i, j | 0 <= i < j < |creates| :: creates[i].outpoint != creates[j].outpoint
  }

  predicate DistinctSpends(spends: seq<Spend>) {
    forall i, j | 0 <= i < j < |spends| :: spends[i].outpoint != spends[j].outpoint
  }
}
