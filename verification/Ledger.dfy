/**
 The confirmed tables and the two transactions that write them: `Apply` adds one block,
 `Rollback` undoes every block above a height by predicates on the height columns alone.
 */
module Ledger {
  import opened Rows
  import opened Sums

  /** How and where an output was spent: the four nullable spent_* columns. */
  datatype Mark = Mark(source: Hash, kind: byte, vin: uint32, height: nat)

  datatype OutputRow = OutputRow(coin: Coin, heightExact: bool, blockHash: Hash, height: nat, spent: Option<Mark>)

  datatype TxRow = TxRow(height: nat, index: nat, size: nat, fee: int, raw: seq<byte>)

  datatype BlockRow = BlockRow(hash: Hash, prev: Option<Hash>, merkleRoot: Hash, mainHash: Hash, txCount: nat)

  datatype Tip = Tip(height: nat, hash: Hash)

  /** blocks, txs, outputs and the one sync_state row. */
  datatype Confirmed = Confirmed(
    blocks: map<nat, BlockRow>,
    txs: map<Hash, TxRow>,
    outputs: map<OutPoint, OutputRow>,
    tip: Option<Tip>)

  const EMPTY := Confirmed(map[], map[], map[], None)

  // ----- Apply: what each statement writes

  function BlockRowOf(b: Block): BlockRow {
    BlockRow(b.hash, b.prev, b.merkleRoot, b.mainHash, |b.txs|)
  }

  function TxRowOf(height: nat, t: Tx): TxRow {
    TxRow(height, t.index, t.size, 0, t.raw)
  }

  function OutputRowOf(height: nat, hash: Hash, o: Output): OutputRow {
    OutputRow(o.coin, o.heightExact, hash, height, None)
  }

  /** The rows of one INSERT ... ON CONFLICT (txid) DO NOTHING into an empty table: the first writer wins. */
  function FirstTxs(height: nat, txs: seq<Tx>): (r: map<Hash, TxRow>)
    ensures r.Keys == Txids(txs)
    ensures forall x | x in r :: r[x].height == height
  {
    if txs == [] then map[] else
      var n := |txs| - 1;
      var rest := FirstTxs(height, txs[..n]);
      assert txs == txs[..n] + [txs[n]];
      if txs[n].txid in rest then rest else rest[txs[n].txid := TxRowOf(height, txs[n])]
  }

  function FirstOutputs(height: nat, hash: Hash, creates: seq<Output>): (r: map<OutPoint, OutputRow>)
    ensures r.Keys == Created(creates)
    ensures forall o | o in r :: r[o].height == height && r[o].blockHash == hash && r[o].spent == None
  {
    if creates == [] then map[] else
      var n := |creates| - 1;
      var rest := FirstOutputs(height, hash, creates[..n]);
      assert creates == creates[..n] + [creates[n]];
      if creates[n].outpoint in rest then rest
      else rest[creates[n].outpoint := OutputRowOf(height, hash, creates[n])]
  }

  /** The unique index on (block_hash, vout) over coinbase rows. */
  ghost predicate UniqueCoinbase(outputs: map<OutPoint, OutputRow>) {
    forall o, p :: !CoinbaseClash(outputs, o, p)
  }

  predicate CoinbaseClash(outputs: map<OutPoint, OutputRow>, o: OutPoint, p: OutPoint) {
    o != p && o in outputs && p in outputs && o.kind == KIND_COINBASE && p.kind == KIND_COINBASE
    && outputs[o].blockHash == outputs[p].blockHash && o.vout == p.vout
  }

  ghost predicate HashTaken(blocks: map<nat, BlockRow>, hash: Hash) {
    exists k | k in blocks :: blocks[k].hash == hash
  }

  /**
   The marks one UPDATE ... FROM may write. Each spent outpoint takes one of the listed spends;
   when several name it, which one is not specified.
   */
  ghost predicate Picks(height: nat, spends: seq<Spend>, marks: map<OutPoint, Mark>) {
    && marks.Keys == Consumed(spends)
    && forall o | o in marks ::
      exists i | 0 <= i < |spends| :: spends[i].outpoint == o && marks[o] == MarkOf(height, spends[i])
  }

  function MarkOf(height: nat, s: Spend): Mark {
    Mark(s.source, s.kind, s.vin, height)
  }

  /** One fixed pick, the same for every replay. */
  ghost function ChosenMarks(height: nat, spends: seq<Spend>): map<OutPoint, Mark> {
    map o | o in Consumed(spends) :: var i :| 0 <= i < |spends| && spends[i].outpoint == o; MarkOf(height, spends[i])
  }

  lemma ChosenMarksPick(height: nat, spends: seq<Spend>)
    ensures Picks(height, spends, ChosenMarks(height, spends))
  {
  }

  function Marked(outputs: map<OutPoint, OutputRow>, marks: map<OutPoint, Mark>): map<OutPoint, OutputRow> {
    map o | o in outputs :: if o in marks then outputs[o].(spent := Some(marks[o])) else outputs[o]
  }

  predicate SpentBy(row: OutputRow, txid: Hash, height: nat) {
    row.spent.Some? && row.spent.value.source == txid && row.spent.value.kind == SPEND_REGULAR
    && row.spent.value.height == height
  }

  predicate PaidBy(o: OutPoint, row: OutputRow, txid: Hash, height: nat) {
    o.source == txid && o.kind == KIND_REGULAR && row.height == height
  }

  /** The coins transaction `txid` took at `height`, and the coins it made there. */
  function InputValues(outputs: map<OutPoint, OutputRow>, txid: Hash, height: nat): map<OutPoint, int> {
    map o | o in outputs && SpentBy(outputs[o], txid, height) :: outputs[o].coin.value
  }

  function OutputValues(outputs: map<OutPoint, OutputRow>, txid: Hash, height: nat): map<OutPoint, int> {
    map o | o in outputs && PaidBy(o, outputs[o], txid, height) :: outputs[o].coin.value
  }

  function AtLeastZero(x: int): int {
    if x < 0 then 0 else x
  }

  ghost function Fee(outputs: map<OutPoint, OutputRow>, txid: Hash, height: nat): int {
    AtLeastZero(Sum(InputValues(outputs, txid, height)) - Sum(OutputValues(outputs, txid, height)))
  }

  ghost function WithFees(txs: map<Hash, TxRow>, outputs: map<OutPoint, OutputRow>, height: nat): map<Hash, TxRow> {
    map x | x in txs :: if txs[x].height == height then txs[x].(fee := Fee(outputs, x, height)) else txs[x]
  }

  /** The outputs table after the block's creates and before its spends. */
  function WithCreates(c: Confirmed, b: Block): map<OutPoint, OutputRow> {
    FirstOutputs(b.height, b.hash, b.creates) + c.outputs
  }

  /** The constraints that make the whole transaction fail. */
  ghost predicate Accepts(c: Confirmed, b: Block) {
    b.height !in c.blocks && !HashTaken(c.blocks, b.hash) && UniqueCoinbase(WithCreates(c, b))
  }

  /** The tables one accepted block leaves behind, with the spend marks `marks`. */
  ghost function Applied(c: Confirmed, b: Block, marks: map<OutPoint, Mark>): Confirmed {
    var outputs := Marked(WithCreates(c, b), marks);
    Confirmed(
      c.blocks[b.height := BlockRowOf(b)],
      WithFees(FirstTxs(b.height, b.txs) + c.txs, outputs, b.height),
      outputs,
      Some(Tip(b.height, b.hash)))
  }

  // ----- Rollback

  function Unspent(row: OutputRow, height: nat): OutputRow {
    if row.spent.Some? && row.spent.value.height > height then row.(spent := None) else row
  }

  function RolledBack(c: Confirmed, height: nat): Confirmed {
    var blocks := map k | k in c.blocks && k <= height :: c.blocks[k];
    Confirmed(
      blocks,
      // A transaction goes with the block row it references.
      map x | x in c.txs && !(c.txs[x].height in c.blocks && c.txs[x].height > height) :: c.txs[x],
      map o | o in c.outputs && c.outputs[o].height <= height :: Unspent(c.outputs[o], height),
      if height in blocks then Some(Tip(height, blocks[height].hash)) else None)
  }

  // ----- The structural invariant

  /** Heights run 0..tip without a gap and the tip record names the top row. */
  ghost predicate Contiguous(c: Confirmed) {
    match c.tip
    case None => c.blocks == map[]
    case Some(t) => (forall k: nat :: k in c.blocks <==> k <= t.height) && c.blocks[t.height].hash == t.hash
  }

  /** Every transaction and output row names an indexed block, and no spend precedes its output. */
  ghost predicate RowsAnchored(c: Confirmed) {
    (forall x :: TxAnchored(c, x)) && (forall o :: OutputAnchored(c, o))
  }

  ghost predicate TxAnchored(c: Confirmed, x: Hash) {
    x in c.txs ==> c.txs[x].height in c.blocks
  }

  ghost predicate OutputAnchored(c: Confirmed, o: OutPoint) {
    o in c.outputs ==>
      && c.outputs[o].height in c.blocks
      && c.blocks[c.outputs[o].height].hash == c.outputs[o].blockHash
      && (c.outputs[o].spent.Some? ==>
            c.outputs[o].spent.value.height in c.blocks && c.outputs[o].height <= c.outputs[o].spent.value.height)
  }

  ghost predicate UniqueHashes(c: Confirmed) {
    forall j, k :: !HashClash(c.blocks, j, k)
  }

  predicate HashClash(blocks: map<nat, BlockRow>, j: nat, k: nat) {
    j != k && j in blocks && k in blocks && blocks[j].hash == blocks[k].hash
  }

  ghost predicate Sound(c: Confirmed) {
    Contiguous(c) && RowsAnchored(c) && UniqueHashes(c) && UniqueCoinbase(c.outputs)
  }

  function NextHeight(c: Confirmed): nat {
    match c.tip
    case None => 0
    case Some(t) => t.height + 1
  }

  lemma EmptySound()
    ensures Sound(EMPTY)
  {
  }

  lemma AppliedContiguous(c: Confirmed, b: Block, marks: map<OutPoint, Mark>)
    requires Contiguous(c) && UniqueHashes(c) && Accepts(c, b)
    requires b.height == NextHeight(c)
    ensures Contiguous(Applied(c, b, marks)) && UniqueHashes(Applied(c, b, marks))
  {
    var d := Applied(c, b, marks);
    assert forall k: nat :: k in d.blocks <==> k <= b.height;
    forall j, k
      ensures !HashClash(d.blocks, j, k)
    {
      assert !HashClash(c.blocks, j, k);
    }
  }

  lemma AppliedOutputAnchored(c: Confirmed, b: Block, marks: map<OutPoint, Mark>, o: OutPoint)
    requires OutputAnchored(c, o) && Picks(b.height, b.spends, marks)
    requires forall k | k in c.blocks :: k < b.height
    ensures OutputAnchored(Applied(c, b, marks), o)
  {
    var d := Applied(c, b, marks);
    if o in d.outputs {
      var row := WithCreates(c, b)[o];
      assert row.height <= b.height && d.outputs[o].height == row.height;
    }
  }

  lemma AppliedAnchored(c: Confirmed, b: Block, marks: map<OutPoint, Mark>)
    requires RowsAnchored(c) && Contiguous(c) && Accepts(c, b) && Picks(b.height, b.spends, marks)
    requires b.height == NextHeight(c)
    ensures RowsAnchored(Applied(c, b, marks))
  {
    var d := Applied(c, b, marks);
    assert forall k | k in c.blocks :: k < b.height;
    forall o
      ensures OutputAnchored(d, o)
    {
      assert OutputAnchored(c, o);
      AppliedOutputAnchored(c, b, marks, o);
    }
    forall x
      ensures TxAnchored(d, x)
    {
      assert TxAnchored(c, x);
      if x in d.txs {
        assert x in FirstTxs(b.height, b.txs) + c.txs;
      }
    }
  }

  lemma AppliedUniqueCoinbase(c: Confirmed, b: Block, marks: map<OutPoint, Mark>)
    requires Accepts(c, b)
    ensures UniqueCoinbase(Applied(c, b, marks).outputs)
  {
    var w, d := WithCreates(c, b), Applied(c, b, marks).outputs;
    forall o, p
      ensures !CoinbaseClash(d, o, p)
    {
      assert !CoinbaseClash(w, o, p);
    }
  }

  /** A block at the next height keeps the invariant, whatever it carries and whichever marks are picked. */
  lemma AppliedSound(c: Confirmed, b: Block, marks: map<OutPoint, Mark>)
    requires Sound(c) && Accepts(c, b) && Picks(b.height, b.spends, marks)
    requires b.height == NextHeight(c)
    ensures Sound(Applied(c, b, marks))
    ensures NextHeight(Applied(c, b, marks)) == b.height + 1
  {
    AppliedContiguous(c, b, marks);
    AppliedAnchored(c, b, marks);
    AppliedUniqueCoinbase(c, b, marks);
  }

  lemma RolledBackUniqueCoinbase(c: Confirmed, height: nat)
    requires UniqueCoinbase(c.outputs)
    ensures UniqueCoinbase(RolledBack(c, height).outputs)
  {
    var w, d := c.outputs, RolledBack(c, height).outputs;
    forall o, p
      ensures !CoinbaseClash(d, o, p)
    {
      assert !CoinbaseClash(w, o, p);
    }
  }

  lemma RolledBackAnchored(c: Confirmed, height: nat)
    requires Contiguous(c) && RowsAnchored(c) && height in c.blocks
    ensures RowsAnchored(RolledBack(c, height))
  {
    var d := RolledBack(c, height);
    forall o
      ensures OutputAnchored(d, o)
    {
      assert OutputAnchored(c, o);
      if o in d.outputs {
        assert d.outputs[o] == Unspent(c.outputs[o], height);
      }
    }
    forall x
      ensures TxAnchored(d, x)
    {
      assert TxAnchored(c, x);
    }
  }

  lemma RolledBackContiguous(c: Confirmed, height: nat)
    requires Contiguous(c) && UniqueHashes(c) && height in c.blocks
    ensures Contiguous(RolledBack(c, height)) && UniqueHashes(RolledBack(c, height))
    ensures RolledBack(c, height).tip == Some(Tip(height, c.blocks[height].hash))
  {
    var d := RolledBack(c, height);
    assert forall k: nat :: k in d.blocks <==> k <= height;
    forall j, k
      ensures !HashClash(d.blocks, j, k)
    {
      assert !HashClash(c.blocks, j, k);
    }
  }

  /** Every rollback to an indexed height keeps the invariant. */
  lemma RolledBackSound(c: Confirmed, height: nat)
    requires Sound(c) && height in c.blocks
    ensures Sound(RolledBack(c, height))
    ensures RolledBack(c, height).tip == Some(Tip(height, c.blocks[height].hash))
  {
    RolledBackContiguous(c, height);
    RolledBackAnchored(c, height);
    RolledBackUniqueCoinbase(c, height);
  }

  /** With no outpoint named twice, only one pick is possible. */
  lemma PickUnique(height: nat, spends: seq<Spend>, marks: map<OutPoint, Mark>)
    requires DistinctSpends(spends) && Picks(height, spends, marks)
    ensures marks == ChosenMarks(height, spends)
  {
  }
}
