/** When first-writer-wins drops a coinbase coin: never, if coinbases are named by a digest of their own header. */
module Coinbases {
  import opened Rows
  import opened Ledger
  import opened Undo
  import opened Prepare
  import opened Coins
  import opened Mining

  /** A run of served blocks from nothing. */
  ghost predicate ServedRun(states: seq<Confirmed>, landed: seq<Landed>, codec: Codec) {
    |states| == |landed| + 1 && states[0] == EMPTY && forall k :: ServedAt(states, landed, codec, k)
  }

  ghost predicate ServedAt(states: seq<Confirmed>, landed: seq<Landed>, codec: Codec, k: nat) {
    k < |landed| && k + 1 < |states| ==> ServedStep(states[k], landed[k], codec, states[k + 1])
  }

  ghost predicate ServedStep(c: Confirmed, l: Landed, codec: Codec, d: Confirmed) {
    && Prepared(l.height, l.hash, l.block, l.index, codec) == Some(l.write.block)
    && Allowed(c, l.write) && d == Applied(c, l.write.block, l.write.marks)
    && |l.block.coinbase| <= 0x1_0000_0000
    && forall j | 0 <= j < |l.index.marketCreates| :: l.index.marketCreates[j].outpoint.kind != KIND_COINBASE
  }

  /** The block pays a coinbase output under this outpoint. */
  predicate PaysCoinbase(l: Landed, codec: Codec, o: OutPoint) {
    o.kind == KIND_COINBASE && o.source == CoinbaseSource(l.block, codec) && o.vout < |l.block.coinbase|
  }

  /** The coinbase rows in the tables are those the first `n` blocks pay. */
  ghost predicate PaidByRun(c: Confirmed, landed: seq<Landed>, codec: Codec, n: nat) {
    forall o :: PaidByFirst(c, landed, codec, n, o)
  }

  ghost predicate PaidByFirst(c: Confirmed, landed: seq<Landed>, codec: Codec, n: nat, o: OutPoint) {
    o.kind == KIND_COINBASE ==>
      (o in c.outputs <==> exists j | 0 <= j < n && j < |landed| :: PaysCoinbase(landed[j], codec, o))
  }

  lemma OwnCoinbase(l: Landed, codec: Codec, i: nat)
    requires Prepared(l.height, l.hash, l.block, l.index, codec) == Some(l.write.block)
    requires i < |l.block.coinbase| <= 0x1_0000_0000
    ensures var o := OutPoint(KIND_COINBASE, CoinbaseSource(l.block, codec), i);
      && o in FirstCoins(l.write.block.creates)
      && FirstCoins(l.write.block.creates)[o] == CoinOf(l.block.coinbase[i], codec)
  {
    var b, rows := l.write.block, CoinbaseRows(l.block, codec);
    NumberedApart(KIND_COINBASE, CoinbaseSource(l.block, codec), l.block.coinbase, codec);
    assert rows <= b.creates && b.creates[i] == rows[i];
    FirstCoinIs(b.creates, i);
  }

  /** Every coinbase row a block makes is under the one name of its own coinbase. */
  lemma OwnName(l: Landed, codec: Codec, o: OutPoint)
    requires Prepared(l.height, l.hash, l.block, l.index, codec) == Some(l.write.block)
    requires forall j | 0 <= j < |l.index.marketCreates| :: l.index.marketCreates[j].outpoint.kind != KIND_COINBASE
    requires o in Created(l.write.block.creates) && o.kind == KIND_COINBASE
    ensures o.source == CoinbaseSource(l.block, codec)
  {
    var b := l.write.block;
    var i :| 0 <= i < |b.creates| && b.creates[i].outpoint == o;
    CreatesExplained(l.height, l.hash, l.block, l.index, codec, b, b.creates[i]);
  }

  lemma CoinbasesFit(c: Confirmed, l: Landed, codec: Codec)
    requires Prepared(l.height, l.hash, l.block, l.index, codec) == Some(l.write.block)
    requires forall j | 0 <= j < |l.index.marketCreates| :: l.index.marketCreates[j].outpoint.kind != KIND_COINBASE
    requires Sound(c) && !HashTaken(c.blocks, l.hash)
    ensures UniqueCoinbase(WithCreates(c, l.write.block))
  {
    var b := l.write.block;
    forall o, p
      ensures !CoinbaseClash(WithCreates(c, b), o, p)
    {
      assert !CoinbaseClash(c.outputs, o, p) && OutputAnchored(c, o) && OutputAnchored(c, p);
      if o in Created(b.creates) && p in Created(b.creates) && o.kind == KIND_COINBASE && p.kind == KIND_COINBASE {
        OwnName(l, codec, o);
        OwnName(l, codec, p);
      }
    }
  }

  /** A served block at the next height is accepted if and only if no indexed block has its hash. */
  lemma AcceptedExactly(c: Confirmed, l: Landed, codec: Codec)
    requires Prepared(l.height, l.hash, l.block, l.index, codec) == Some(l.write.block)
    requires forall j | 0 <= j < |l.index.marketCreates| :: l.index.marketCreates[j].outpoint.kind != KIND_COINBASE
    requires Sound(c) && l.height == NextHeight(c)
    ensures Accepts(c, l.write.block) <==> forall k | k in c.blocks :: c.blocks[k].hash != l.hash
  {
    PreparedHeader(l.height, l.hash, l.block, l.index, codec, l.write.block);
    if !HashTaken(c.blocks, l.hash) {
      CoinbasesFit(c, l, codec);
    }
  }

  /** The only coinbase rows a block makes are its own. */
  lemma OwnCoinbases(l: Landed, codec: Codec, o: OutPoint)
    requires Prepared(l.height, l.hash, l.block, l.index, codec) == Some(l.write.block)
    requires |l.block.coinbase| <= 0x1_0000_0000
    requires forall j | 0 <= j < |l.index.marketCreates| :: l.index.marketCreates[j].outpoint.kind != KIND_COINBASE
    ensures o.kind == KIND_COINBASE ==> (o in Created(l.write.block.creates) <==> PaysCoinbase(l, codec, o))
  {
    var b := l.write.block;
    if o in Created(b.creates) && o.kind == KIND_COINBASE {
      var i :| 0 <= i < |b.creates| && b.creates[i].outpoint == o;
      CreatesExplained(l.height, l.hash, l.block, l.index, codec, b, b.creates[i]);
    }
    if PaysCoinbase(l, codec, o) {
      OwnCoinbase(l, codec, o.vout);
    }
  }

  lemma {:induction false} RowsPaidByRun(states: seq<Confirmed>, landed: seq<Landed>, codec: Codec, n: nat)
    requires ServedRun(states, landed, codec) && n < |states|
    ensures PaidByRun(states[n], landed, codec, n)
    decreases n
  {
    if n > 0 {
      var m := n - 1;
      var c, d, l := states[m], states[n], landed[m];
      RowsPaidByRun(states, landed, codec, m);
      assert ServedAt(states, landed, codec, m);
      forall o
        ensures PaidByFirst(d, landed, codec, n, o)
      {
        AppliedRowAt(c, l.write, o);
        OwnCoinbases(l, codec, o);
        assert PaidByFirst(c, landed, codec, m, o);
      }
    }
  }

  /** Before block `k` another paid output `i` of its coinbase under the same name. */
  ghost predicate PaidBefore(landed: seq<Landed>, codec: Codec, k: nat, i: nat) {
    exists j | 0 <= j < k && j < |landed| && k < |landed| ::
      i < |landed[j].block.coinbase| && CoinbaseSource(landed[j].block, codec) == CoinbaseSource(landed[k].block, codec)
  }

  /**
   In every run of served blocks output `i` of block `k`'s coinbase is stored, with its own coin at that block's height,
   if and only if no earlier block paid one under the same name. Otherwise the earlier row stays as it was made.
   */
  lemma CoinbaseKept(states: seq<Confirmed>, landed: seq<Landed>, codec: Codec, k: nat, i: nat)
    requires ServedRun(states, landed, codec)
    requires k < |landed| && i < |landed[k].block.coinbase|
    ensures i < 0x1_0000_0000
    ensures var o := OutPoint(KIND_COINBASE, CoinbaseSource(landed[k].block, codec), i);
      var c, d := states[k].outputs, states[k + 1].outputs;
      && o in d && (o in c <==> PaidBefore(landed, codec, k, i))
      && (!PaidBefore(landed, codec, k, i) ==>
            d[o].height == landed[k].write.block.height && d[o].coin == CoinOf(landed[k].block.coinbase[i], codec))
      && (PaidBefore(landed, codec, k, i) ==> d[o].height == c[o].height && d[o].coin == c[o].coin)
  {
    assert ServedAt(states, landed, codec, k);
    var c, l := states[k], landed[k];
    var o := OutPoint(KIND_COINBASE, CoinbaseSource(l.block, codec), i);
    RowsPaidByRun(states, landed, codec, k);
    assert PaidByFirst(c, landed, codec, k, o);
    OwnCoinbase(l, codec, i);
    AppliedRowAt(c, l.write, o);
  }

  /** Different headers have different digests. */
  ghost predicate DigestApart(codec: Codec) {
    forall g, h :: codec.coinbaseTxid(g) == codec.coinbaseTxid(h) ==> g == h
  }

  ghost predicate HeadersApart(landed: seq<Landed>) {
    forall j, k | 0 <= j < k < |landed| :: landed[j].block.header != landed[k].block.header
  }

  /** So a chain of keyed blocks with different headers loses no coinbase coin. */
  lemma NoCoinbaseDropped(states: seq<Confirmed>, landed: seq<Landed>, codec: Codec, k: nat, i: nat)
    requires DigestApart(codec) && ServedRun(states, landed, codec) && HeadersApart(landed)
    requires forall j | 0 <= j < |landed| :: landed[j].block.keyedByTxid
    requires k < |landed| && i < |landed[k].block.coinbase|
    ensures i < 0x1_0000_0000
    ensures var o := OutPoint(KIND_COINBASE, codec.coinbaseTxid(landed[k].block.header), i);
      && o !in states[k].outputs && o in states[k + 1].outputs
      && states[k + 1].outputs[o].height == landed[k].write.block.height
      && states[k + 1].outputs[o].coin == CoinOf(landed[k].block.coinbase[i], codec)
  {
    CoinbaseKept(states, landed, codec, k, i);
    assert forall j | 0 <= j < k ::
      codec.coinbaseTxid(landed[j].block.header) != codec.coinbaseTxid(landed[k].block.header);
  }

  /** And one of unkeyed blocks loses a coin exactly where a merkle root comes back. */
  lemma SharedRootDrops(states: seq<Confirmed>, landed: seq<Landed>, codec: Codec, k: nat, i: nat)
    requires ServedRun(states, landed, codec) && forall j | 0 <= j < |landed| :: !landed[j].block.keyedByTxid
    requires k < |landed| && i < |landed[k].block.coinbase|
    ensures i < 0x1_0000_0000
    ensures OutPoint(KIND_COINBASE, landed[k].block.header.merkleRoot, i) in states[k].outputs <==>
      exists j | 0 <= j < k ::
        i < |landed[j].block.coinbase| && landed[j].block.header.merkleRoot == landed[k].block.header.merkleRoot
  {
    CoinbaseKept(states, landed, codec, k, i);
  }
}
