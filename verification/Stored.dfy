/** What a landed block leaves in every column: its links, each transaction's place, each mark's position. */
module Stored {
  import opened Rows
  import opened Ledger
  import opened Undo
  import opened Prepare
  import opened Coins
  import opened Conservation
  import opened Mining
  import opened Overlay
  import opened Paging

  /** A served block landed on `c` and left `d`. */
  ghost predicate LandsOn(c: Confirmed, l: Landed, codec: Codec, d: Confirmed) {
    && Prepared(l.height, l.hash, l.block, l.index, codec) == Some(l.write.block)
    && Sound(c) && Allowed(c, l.write) && d == Applied(c, l.write.block, l.write.marks)
  }

  /** The block row holds the hash it was read by, the links and roots of its header, and how many it lists. */
  lemma BlockStored(c: Confirmed, l: Landed, codec: Codec, d: Confirmed)
    requires LandsOn(c, l, codec, d)
    ensures l.height in d.blocks && d.tip == Some(Tip(l.height, l.hash))
    ensures var row, header := d.blocks[l.height], l.block.header;
      && row.hash == l.hash && row.prev == header.prevSideHash && row.merkleRoot == header.merkleRoot
      && row.mainHash == header.prevMainHash && row.txCount == |l.block.transactions|
  {
    PreparedHeader(l.height, l.hash, l.block, l.index, codec, l.write.block);
  }

  /** Of several listings of one txid the first is stored. */
  lemma {:induction false} FirstTxIs(height: nat, txs: seq<Tx>, i: nat)
    requires i < |txs| && forall j | 0 <= j < i :: txs[j].txid != txs[i].txid
    ensures var rows := FirstTxs(height, txs); var x := txs[i].txid;
      x in rows && rows[x].index == txs[i].index && rows[x].size == txs[i].size && rows[x].raw == txs[i].raw
    decreases |txs|
  {
    var n := |txs| - 1;
    if i == n {
      assert txs[n].txid !in Txids(txs[..n]);
    } else {
      FirstTxIs(height, txs[..n], i);
    }
  }

  /** Of several creates of one outpoint the first is stored, as exact or inexact as it came. */
  lemma {:induction false} FirstOutputIs(height: nat, hash: Hash, creates: seq<Output>, i: nat)
    requires i < |creates| && forall j | 0 <= j < i :: creates[j].outpoint != creates[i].outpoint
    ensures var rows := FirstOutputs(height, hash, creates); var o := creates[i].outpoint;
      o in rows && rows[o].coin == creates[i].coin && rows[o].heightExact == creates[i].heightExact
    decreases |creates|
  {
    var n := |creates| - 1;
    if i == n {
      assert creates[n].outpoint !in Created(creates[..n]);
    } else {
      FirstOutputIs(height, hash, creates[..n], i);
    }
  }

  /** A coin new to the index is stored as the block makes it, under the block's hash and height. */
  lemma OutputStored(c: Confirmed, w: Write, i: nat)
    requires Allowed(c, w) && i < |w.block.creates| && w.block.creates[i].outpoint !in c.outputs
    requires forall j | 0 <= j < i :: w.block.creates[j].outpoint != w.block.creates[i].outpoint
    ensures var rows, made := Applied(c, w.block, w.marks).outputs, w.block.creates[i];
      && made.outpoint in rows && rows[made.outpoint].coin == made.coin
      && rows[made.outpoint].heightExact == made.heightExact
      && rows[made.outpoint].blockHash == w.block.hash && rows[made.outpoint].height == w.block.height
  {
    FirstOutputIs(w.block.height, w.block.hash, w.block.creates, i);
  }

  /** A transaction new to the index is stored with its place in the body, its size and its bytes. */
  lemma TransactionStored(c: Confirmed, l: Landed, codec: Codec, d: Confirmed, i: nat)
    requires LandsOn(c, l, codec, d) && i < |l.block.transactions| && i < |l.index.txs|
    requires l.index.txs[i].txid !in c.txs && forall j | 0 <= j < i :: l.index.txs[j].txid != l.index.txs[i].txid
    ensures var info := l.index.txs[i];
      && info.txid in d.txs && d.txs[info.txid].height == l.height && d.txs[info.txid].index == i
      && d.txs[info.txid].size == info.size && d.txs[info.txid].raw == info.raw
  {
    var b, x := l.write.block, l.index.txs[i].txid;
    PreparedPlaces(l.height, l.hash, l.block, l.index, codec, b, i);
    assert b.txs == TxRows(l.index.txs);
    FirstTxIs(b.height, b.txs, i);
    assert (FirstTxs(b.height, b.txs) + c.txs)[x] == FirstTxs(b.height, b.txs)[x];
  }

  lemma InputListed(l: Landed, codec: Codec, k: nat, n: nat) returns (i: nat)
    requires Prepared(l.height, l.hash, l.block, l.index, codec) == Some(l.write.block)
    requires k < |l.block.transactions| && k < |l.index.txs| && !l.index.txs[k].skipped
    requires n < |l.block.transactions[k].inputs| && n < 0x1_0000_0000
    ensures l.write.block.height == l.height && i < |l.write.block.spends|
    ensures l.write.block.spends[i] ==
      Spend(l.block.transactions[k].inputs[n], l.index.txs[k].txid, SPEND_REGULAR, n)
  {
    var b := l.write.block;
    var row := Spend(l.block.transactions[k].inputs[n], l.index.txs[k].txid, SPEND_REGULAR, n);
    assert InputRow(l.block, l.index, k, n, row);
    SpendsExplained(l.height, l.hash, l.block, l.index, codec, b, row);
    i :| 0 <= i < |b.spends| && b.spends[i] == row;
  }

  /** Input `n` of executed transaction `k` marks the coin it takes with that transaction, `n` and the height. */
  lemma InputStored(c: Confirmed, l: Landed, codec: Codec, d: Confirmed, k: nat, n: nat)
    requires LandsOn(c, l, codec, d) && DistinctSpends(l.write.block.spends)
    requires k < |l.block.transactions| && k < |l.index.txs| && !l.index.txs[k].skipped
    requires n < |l.block.transactions[k].inputs| && n < 0x1_0000_0000
    requires l.block.transactions[k].inputs[n] in d.outputs
    ensures d.outputs[l.block.transactions[k].inputs[n]].spent ==
      Some(Mark(l.index.txs[k].txid, SPEND_REGULAR, n, l.height))
  {
    var i := InputListed(l, codec, k, n);
    PickOf(l.write, i);
    AppliedRowAt(c, l.write, l.block.transactions[k].inputs[n]);
  }

  // ----- And so in the histories of the owners

  /** A transaction that takes an owner's coin is in the owner's history, at the height of its block. */
  lemma SpenderTouches(c: Confirmed, l: Landed, codec: Codec, d: Confirmed, k: nat, n: nat, mine: Owner)
    requires LandsOn(c, l, codec, d) && DistinctSpends(l.write.block.spends)
    requires k < |l.block.transactions| && k < |l.index.txs| && !l.index.txs[k].skipped
    requires n < |l.block.transactions[k].inputs| && n < 0x1_0000_0000
    requires l.block.transactions[k].inputs[n] in d.outputs
    requires mine(d.outputs[l.block.transactions[k].inputs[n]].coin.address)
    ensures Ref(l.index.txs[k].txid, l.height) in Touched(d.outputs, mine)
  {
    InputStored(c, l, codec, d, k, n);
    var o := l.block.transactions[k].inputs[n];
    assert Ref(l.index.txs[k].txid, l.height) == Ref(d.outputs[o].spent.value.source, d.outputs[o].spent.value.height);
  }

  /** And one that makes an owner a new coin. */
  lemma MakerTouches(c: Confirmed, l: Landed, codec: Codec, d: Confirmed, k: nat, n: nat, mine: Owner)
    requires LandsOn(c, l, codec, d)
    requires k < |l.block.transactions| && k < |l.index.txs| && !l.index.txs[k].skipped
    requires n < |l.block.transactions[k].outputs| && n < 0x1_0000_0000
    requires var o := OutPoint(KIND_REGULAR, l.index.txs[k].txid, n);
      o !in c.outputs && (o in d.outputs ==> mine(d.outputs[o].coin.address))
    ensures Ref(l.index.txs[k].txid, l.height) in Touched(d.outputs, mine)
  {
    var b, o := l.write.block, OutPoint(KIND_REGULAR, l.index.txs[k].txid, n);
    var row := Output(o, CoinOf(l.block.transactions[k].outputs[n], codec), true);
    assert TransactionRow(l.block, l.index, codec, k, n, row);
    CreatesExplained(l.height, l.hash, l.block, l.index, codec, b, row);
    AppliedRowAt(c, l.write, o);
    assert Ref(o.source, d.outputs[o].height) == Ref(l.index.txs[k].txid, l.height);
  }
}
