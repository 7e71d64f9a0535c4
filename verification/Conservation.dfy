/** Value conservation in the node's own terms: coinbase, deposits, market creates, bundles, market deletes, fees. */
module Conservation {
  import opened Rows
  import opened Sums
  import opened Ledger
  import opened Undo
  import opened Prepare
  import opened Coins

  /** What a list of creates is worth, row by row. */
  function Total(creates: seq<Output>): int {
    if creates == [] then 0 else Total(creates[..|creates| - 1]) + creates[|creates| - 1].coin.value
  }

  /** What a list of spends removes from `coins`, row by row. */
  function Worth(spends: seq<Spend>, coins: map<OutPoint, Coin>): int {
    if spends == [] then 0 else
      var o := spends[|spends| - 1].outpoint;
      Worth(spends[..|spends| - 1], coins) + if o in coins then coins[o].value else 0
  }

  lemma {:induction false} TotalConcat(a: seq<Output>, b: seq<Output>)
    ensures Total(a + b) == Total(a) + Total(b)
    decreases |b|
  {
    if b == [] {
      assert a + b == a;
    } else {
      var n := |b| - 1;
      TotalConcat(a, b[..n]);
      assert (a + b)[..|a + b| - 1] == a + b[..n];
    }
  }

  lemma {:induction false} WorthConcat(a: seq<Spend>, b: seq<Spend>, coins: map<OutPoint, Coin>)
    ensures Worth(a + b, coins) == Worth(a, coins) + Worth(b, coins)
    decreases |b|
  {
    if b == [] {
      assert a + b == a;
    } else {
      var n := |b| - 1;
      WorthConcat(a, b[..n], coins);
      assert (a + b)[..|a + b| - 1] == a + b[..n];
    }
  }

  lemma {:induction false} DistinctCoin(creates: seq<Output>, i: nat)
    requires DistinctCreates(creates) && i < |creates|
    ensures creates[i].outpoint in FirstCoins(creates) && FirstCoins(creates)[creates[i].outpoint] == creates[i].coin
    decreases |creates|
  {
    var n := |creates| - 1;
    if i < n {
      DistinctCoin(creates[..n], i);
    } else {
      assert creates[n].outpoint !in Created(creates[..n]);
    }
  }

  lemma LostSnoc(spends: seq<Spend>, coins: map<OutPoint, Coin>)
    requires DistinctSpends(spends) && spends != [] && Consumed(spends) <= coins.Keys
    ensures var n := |spends| - 1;
      && spends[n].outpoint in coins && spends[n].outpoint !in Consumed(spends[..n])
      && Consumed(spends[..n]) <= coins.Keys
      && Lost(coins, Consumed(spends))
         == Lost(coins, Consumed(spends[..n]))[spends[n].outpoint := coins[spends[n].outpoint].value]
  {
  }

  lemma {:induction false} WorthIsSum(spends: seq<Spend>, coins: map<OutPoint, Coin>)
    requires DistinctSpends(spends) && Consumed(spends) <= coins.Keys
    ensures Sum(Lost(coins, Consumed(spends))) == Worth(spends, coins)
    decreases |spends|
  {
    if spends == [] {
      assert Lost(coins, Consumed(spends)) == map[];
    } else {
      var n := |spends| - 1;
      LostSnoc(spends, coins);
      WorthIsSum(spends[..n], coins);
      SumInsert(Lost(coins, Consumed(spends[..n])), spends[n].outpoint, coins[spends[n].outpoint].value);
    }
  }

  // ----- The rows that no transaction stands behind

  predicate MadeByTx(o: Output, ids: set<Hash>) {
    o.outpoint.kind == KIND_REGULAR && o.outpoint.source in ids
  }

  predicate TakenByTx(s: Spend, ids: set<Hash>) {
    s.kind == SPEND_REGULAR && s.source in ids
  }

  /** The rows of a list that stand for no transaction of `ids`. */
  function Outside(creates: seq<Output>, ids: set<Hash>): seq<Output> {
    if creates == [] then [] else
      var n := |creates| - 1;
      Outside(creates[..n], ids) + if MadeByTx(creates[n], ids) then [] else [creates[n]]
  }

  lemma {:induction false} OutsideConcat(a: seq<Output>, b: seq<Output>, ids: set<Hash>)
    ensures Outside(a + b, ids) == Outside(a, ids) + Outside(b, ids)
    decreases |b|
  {
    if b == [] {
      assert a + b == a;
    } else {
      var n := |b| - 1;
      OutsideConcat(a, b[..n], ids);
      assert (a + b)[..|a + b| - 1] == a + b[..n];
    }
  }

  lemma {:induction false} OutsideAllOrNone(creates: seq<Output>, ids: set<Hash>)
    ensures (forall i | 0 <= i < |creates| :: !MadeByTx(creates[i], ids)) ==> Outside(creates, ids) == creates
    ensures (forall i | 0 <= i < |creates| :: MadeByTx(creates[i], ids)) ==> Outside(creates, ids) == []
    decreases |creates|
  {
    if creates == [] {
    } else {
      var n := |creates| - 1;
      OutsideAllOrNone(creates[..n], ids);
      assert creates == creates[..n] + [creates[n]];
    }
  }

  function OutsideValues(coins: map<OutPoint, Coin>, ids: set<Hash>): map<OutPoint, int> {
    map o | o in coins && !(o.kind == KIND_REGULAR && o.source in ids) :: coins[o].value
  }

  lemma OutsideInsert(coins: map<OutPoint, Coin>, ids: set<Hash>, o: OutPoint, c: Coin)
    requires o !in coins
    ensures o !in OutsideValues(coins, ids)
    ensures OutsideValues(coins[o := c], ids)
      == if o.kind == KIND_REGULAR && o.source in ids then OutsideValues(coins, ids)
         else OutsideValues(coins, ids)[o := c.value]
  {
  }

  lemma UnionSingle(coins: map<OutPoint, Coin>, o: OutPoint, c: Coin)
    requires o !in coins
    ensures map[o := c] + coins == coins[o := c]
  {
  }

  lemma LastIsNew(creates: seq<Output>, n: nat)
    requires DistinctCreates(creates) && |creates| == n + 1
    ensures DistinctCreates(creates[..n]) && creates[n].outpoint !in Created(creates[..n])
  {
  }

  lemma CoinsSnoc(creates: seq<Output>, n: nat, before: map<OutPoint, Coin>)
    requires |creates| == n + 1 && before == FirstCoins(creates[..n])
    requires creates[n].outpoint !in before
    ensures FirstCoins(creates) == before[creates[n].outpoint := creates[n].coin]
  {
    UnionSingle(before, creates[n].outpoint, creates[n].coin);
  }

  lemma {:induction false} OutsideTotal(creates: seq<Output>, ids: set<Hash>)
    requires DistinctCreates(creates)
    ensures Sum(OutsideValues(FirstCoins(creates), ids)) == Total(Outside(creates, ids))
    decreases |creates|
  {
    if creates == [] {
      assert OutsideValues(FirstCoins(creates), ids) == map[];
    } else {
      var n := |creates| - 1;
      LastIsNew(creates, n);
      OutsideTotal(creates[..n], ids);
      OutsideTotalSnoc(creates, n, FirstCoins(creates[..n]), ids);
    }
  }

  lemma OutsideTotalSnoc(creates: seq<Output>, n: nat, before: map<OutPoint, Coin>, ids: set<Hash>)
    requires |creates| == n + 1 && before == FirstCoins(creates[..n]) && creates[n].outpoint !in before
    requires Sum(OutsideValues(before, ids)) == Total(Outside(creates[..n], ids))
    ensures Sum(OutsideValues(FirstCoins(creates), ids)) == Total(Outside(creates, ids))
  {
    var last, rest := creates[n], Outside(creates[..n], ids);
    CoinsSnoc(creates, n, before);
    OutsideInsert(before, ids, last.outpoint, last.coin);
    OutsideSnoc(creates, n, ids);
    if !MadeByTx(last, ids) {
      SumInsert(OutsideValues(before, ids), last.outpoint, last.coin.value);
      TotalSnoc(rest, last);
    }
  }

  lemma OutsideSnoc(creates: seq<Output>, n: nat, ids: set<Hash>)
    requires |creates| == n + 1
    ensures var rest := Outside(creates[..n], ids);
      Outside(creates, ids) == if MadeByTx(creates[n], ids) then rest else rest + [creates[n]]
  {
    assert Outside(creates[..n], ids) + [] == Outside(creates[..n], ids);
  }

  lemma TotalSnoc(creates: seq<Output>, o: Output)
    ensures Total(creates + [o]) == Total(creates) + o.coin.value
  {
    assert (creates + [o])[..|creates|] == creates;
  }

  lemma MadeOutsideIs(b: Block)
    requires DistinctCreates(b.creates)
    ensures Sum(MadeOutside(b)) == Total(Outside(b.creates, Txids(b.txs)))
  {
    assert MadeOutside(b) == OutsideValues(FirstCoins(b.creates), Txids(b.txs));
    OutsideTotal(b.creates, Txids(b.txs));
  }

  lemma PickOf(w: Write, i: nat)
    requires DistinctSpends(w.block.spends) && Picks(w.block.height, w.block.spends, w.marks) && i < |w.block.spends|
    ensures w.block.spends[i].outpoint in w.marks
    ensures w.marks[w.block.spends[i].outpoint] == MarkOf(w.block.height, w.block.spends[i])
  {
  }

  /** Whose the mark of `o` is, by which part of the spends names it. */
  lemma MarkByPart(w: Write, front: seq<Spend>, back: seq<Spend>, o: OutPoint)
    requires w.block.spends == front + back && DistinctSpends(w.block.spends)
    requires Picks(w.block.height, w.block.spends, w.marks) && o in Consumed(w.block.spends)
    requires forall i | 0 <= i < |front| :: TakenByTx(front[i], Txids(w.block.txs))
    requires forall i | 0 <= i < |back| :: !TakenByTx(back[i], Txids(w.block.txs))
    ensures o in w.marks
    ensures o in Consumed(back)
       <==> !(w.marks[o].kind == SPEND_REGULAR && w.marks[o].source in Txids(w.block.txs))
  {
    ConsumedConcat(front, back);
    if o in Consumed(back) {
      var i :| 0 <= i < |back| && back[i].outpoint == o;
      assert w.block.spends[|front| + i] == back[i] && !TakenByTx(back[i], Txids(w.block.txs));
      PickOf(w, |front| + i);
    } else {
      var i :| 0 <= i < |front| && front[i].outpoint == o;
      assert w.block.spends[i] == front[i] && TakenByTx(front[i], Txids(w.block.txs));
      PickOf(w, i);
    }
  }

  lemma TakenOutsideAt(held: Outputs, w: Write, front: seq<Spend>, back: seq<Spend>, o: OutPoint)
    requires w.block.spends == front + back && DistinctSpends(w.block.spends)
    requires Picks(w.block.height, w.block.spends, w.marks)
    requires forall i | 0 <= i < |front| :: TakenByTx(front[i], Txids(w.block.txs))
    requires forall i | 0 <= i < |back| :: !TakenByTx(back[i], Txids(w.block.txs))
    ensures SameAt(TakenOutside(held, w.block, w.marks), Lost(Available(held, w.block), Consumed(back)), o)
  {
    ConsumedConcat(front, back);
    if o in Consumed(w.block.spends) {
      MarkByPart(w, front, back, o);
    }
  }

  lemma DropFront(spends: seq<Spend>, front: seq<Spend>, back: seq<Spend>)
    requires spends == front + back && DistinctSpends(spends)
    ensures DistinctSpends(back) && Consumed(back) <= Consumed(spends)
  {
    ConsumedConcat(front, back);
    forall i, j | 0 <= i < j < |back|
      ensures back[i].outpoint != back[j].outpoint
    {
      assert spends[|front| + i] == back[i] && spends[|front| + j] == back[j];
    }
  }

  lemma TakenOutsideIs(held: Outputs, w: Write, front: seq<Spend>, back: seq<Spend>)
    requires w.block.spends == front + back && DistinctSpends(w.block.spends)
    requires Picks(w.block.height, w.block.spends, w.marks)
    requires forall i | 0 <= i < |front| :: TakenByTx(front[i], Txids(w.block.txs))
    requires forall i | 0 <= i < |back| :: !TakenByTx(back[i], Txids(w.block.txs))
    ensures TakenOutside(held, w.block, w.marks) == Lost(Available(held, w.block), Consumed(back))
  {
    var taken, want := TakenOutside(held, w.block, w.marks), Lost(Available(held, w.block), Consumed(back));
    SameEverywhere(taken, want);
    forall o
      ensures SameAt(taken, want, o)
    {
      TakenOutsideAt(held, w, front, back, o);
    }
  }

  // ----- Prepared blocks

  lemma {:induction false} EntryRowsHaveTx(es: seq<Entry>, codec: Codec, ids: set<Hash>)
    requires forall i | 0 <= i < |es| :: es[i].info.txid in ids
    ensures forall i | 0 <= i < |AllCreates(es, codec)| :: MadeByTx(AllCreates(es, codec)[i], ids)
    ensures forall i | 0 <= i < |AllSpends(es)| :: TakenByTx(AllSpends(es)[i], ids)
    decreases |es|
  {
    if es == [] {
    } else {
      EntryRowsHaveTx(es[..|es| - 1], codec, ids);
    }
  }

  lemma {:induction false} ExecutedListed(txs: seq<Transaction>, infos: seq<TxInfo>, ids: set<Hash>)
    requires |txs| == |infos| && forall i | 0 <= i < |infos| :: infos[i].txid in ids
    ensures forall i | 0 <= i < |Executed(txs, infos)| :: Executed(txs, infos)[i].info.txid in ids
    decreases |txs|
  {
    if txs == [] {
    } else {
      ExecutedListed(txs[..|txs| - 1], infos[..|txs| - 1], ids);
    }
  }

  lemma TxRowsSplit(height: nat, hash: Hash, nb: NodeBlock, index: BlockIndex, codec: Codec, b: Block)
    requires Prepared(height, hash, nb, index, codec) == Some(b)
    ensures var es := Executed(nb.transactions, index.txs);
      && b.creates == CoinbaseRows(nb, codec) + AllCreates(es, codec)
                      + (PlacedRows(index.deposits, codec) + PlacedRows(index.marketCreates, codec))
      && b.spends == AllSpends(es) + (BundleRows(index.bundleSpends) + DeleteRows(index.marketDeletes, hash))
      && b.txs == TxRows(index.txs)
  {
  }

  lemma TxRowsHaveTx(nb: NodeBlock, index: BlockIndex, codec: Codec)
    requires |nb.transactions| == |index.txs|
    ensures var es := Executed(nb.transactions, index.txs); var ids := Txids(TxRows(index.txs));
      && (forall i | 0 <= i < |AllCreates(es, codec)| :: MadeByTx(AllCreates(es, codec)[i], ids))
      && (forall i | 0 <= i < |AllSpends(es)| :: TakenByTx(AllSpends(es)[i], ids))
  {
    var ids := Txids(TxRows(index.txs));
    assert forall i | 0 <= i < |index.txs| :: TxRows(index.txs)[i].txid == index.txs[i].txid;
    ExecutedListed(nb.transactions, index.txs, ids);
    EntryRowsHaveTx(Executed(nb.transactions, index.txs), codec, ids);
  }

  lemma PlainRowsHaveNone(hash: Hash, nb: NodeBlock, index: BlockIndex, codec: Codec, ids: set<Hash>)
    requires DepositsTagged(index.deposits)
    ensures forall i | 0 <= i < |CoinbaseRows(nb, codec)| :: !MadeByTx(CoinbaseRows(nb, codec)[i], ids)
    ensures forall i | 0 <= i < |index.deposits| :: !MadeByTx(PlacedRows(index.deposits, codec)[i], ids)
    ensures var out := BundleRows(index.bundleSpends) + DeleteRows(index.marketDeletes, hash);
      forall i | 0 <= i < |out| :: !TakenByTx(out[i], ids)
  {
  }

  /** Outside its transactions a block makes its coinbase, its deposits and the market rows that pose as no output. */
  lemma OutsideIs(height: nat, hash: Hash, nb: NodeBlock, index: BlockIndex, codec: Codec, b: Block)
    requires Prepared(height, hash, nb, index, codec) == Some(b) && DistinctCreates(b.creates)
    ensures Sum(MadeOutside(b))
         == Total(CoinbaseRows(nb, codec)) + Total(PlacedRows(index.deposits, codec))
            + Total(Outside(PlacedRows(index.marketCreates, codec), Txids(b.txs)))
  {
    var ids, es := Txids(b.txs), Executed(nb.transactions, index.txs);
    var front, deposits := CoinbaseRows(nb, codec), PlacedRows(index.deposits, codec);
    var mid, market := AllCreates(es, codec), PlacedRows(index.marketCreates, codec);
    TxRowsSplit(height, hash, nb, index, codec, b);
    TxRowsHaveTx(nb, index, codec);
    PlainRowsHaveNone(hash, nb, index, codec, ids);
    MadeOutsideIs(b);
    OutsideParts(front, mid, deposits, market, ids);
  }

  lemma OutsideParts(front: seq<Output>, mid: seq<Output>, deposits: seq<Output>, market: seq<Output>, ids: set<Hash>)
    requires forall i | 0 <= i < |front| :: !MadeByTx(front[i], ids)
    requires forall i | 0 <= i < |mid| :: MadeByTx(mid[i], ids)
    requires forall i | 0 <= i < |deposits| :: !MadeByTx(deposits[i], ids)
    ensures Total(Outside(front + mid + (deposits + market), ids))
         == Total(front) + Total(deposits) + Total(Outside(market, ids))
  {
    OutsideAllOrNone(front, ids);
    OutsideAllOrNone(mid, ids);
    OutsideAllOrNone(deposits, ids);
    OutsideConcat(front + mid, deposits + market, ids);
    OutsideConcat(front, mid, ids);
    OutsideConcat(deposits, market, ids);
    var rest := Outside(market, ids);
    assert front + [] == front;
    TotalConcat(front, deposits + rest);
    TotalConcat(deposits, rest);
  }

  /**
   How far the unspent total after a block is from coinbase plus deposits plus market creates, less bundle spends,
   less market deletes, less the fees on record. A market create under the id of one of the block's own transactions
   is that transaction's output to the fee query, so it counts there.
   */
  ghost function Imbalance(c: Confirmed, w: Write, hash: Hash, nb: NodeBlock, index: BlockIndex, codec: Codec): int {
    var next, coins := Applied(c, w.block, w.marks), Available(c.outputs, w.block);
    TotalUnspent(next.outputs)
    - (TotalUnspent(c.outputs)
       + Total(CoinbaseRows(nb, codec))
       + Total(PlacedRows(index.deposits, codec))
       + Total(Outside(PlacedRows(index.marketCreates, codec), Txids(w.block.txs)))
       - Worth(BundleRows(index.bundleSpends), coins)
       - Worth(DeleteRows(index.marketDeletes, hash), coins)
       - Sum(RecordedFees(next, w.block)))
  }

  /**
   The books are off by exactly the fees on record less the gaps. For new txids they balance exactly when every
   transaction covers its outputs; a skipped trade contributes nothing. One listed before is on record with its old
   fee, so it is off by that fee less its gap.
   */
  lemma BlockConservesValue(
    c: Confirmed, w: Write, height: nat, hash: Hash, nb: NodeBlock, index: BlockIndex, codec: Codec)
    requires Sound(c) && Allowed(c, w) && Orderly(c.outputs, w.block)
    requires Prepared(height, hash, nb, index, codec) == Some(w.block)
    requires DistinctCreates(w.block.creates) && DistinctSpends(w.block.spends)
    ensures Imbalance(c, w, hash, nb, index, codec)
         == Sum(FeesToRecord(c, w)) - Sum(Gaps(c.outputs, w.block, w.marks))
    ensures Txids(w.block.txs) !! c.txs.Keys ==>
              (Imbalance(c, w, hash, nb, index, codec) == 0 <==> Covered(c.outputs, w.block, w.marks))
  {
    OutsideIs(height, hash, nb, index, codec, w.block);
    RemovedIs(c, w, height, hash, nb, index, codec);
    ValueConserved(c, w);
    if Txids(w.block.txs) !! c.txs.Keys {
      NewFeesAgainstGaps(c, w);
    }
  }

  /** Outside its transactions a block takes its bundle spends and its market deletes. */
  lemma RemovedIs(c: Confirmed, w: Write, height: nat, hash: Hash, nb: NodeBlock, index: BlockIndex, codec: Codec)
    requires Prepared(height, hash, nb, index, codec) == Some(w.block) && Orderly(c.outputs, w.block)
    requires Picks(w.block.height, w.block.spends, w.marks) && DistinctSpends(w.block.spends)
    ensures var coins := Available(c.outputs, w.block);
      Sum(TakenOutside(c.outputs, w.block, w.marks))
      == Worth(BundleRows(index.bundleSpends), coins) + Worth(DeleteRows(index.marketDeletes, hash), coins)
  {
    var b, coins, es := w.block, Available(c.outputs, w.block), Executed(nb.transactions, index.txs);
    var bundles, deletes := BundleRows(index.bundleSpends), DeleteRows(index.marketDeletes, hash);
    TxRowsSplit(height, hash, nb, index, codec, b);
    TxRowsHaveTx(nb, index, codec);
    PlainRowsHaveNone(hash, nb, index, codec, Txids(b.txs));
    TakenOutsideIs(c.outputs, w, AllSpends(es), bundles + deletes);
    DropFront(b.spends, AllSpends(es), bundles + deletes);
    WorthIsSum(bundles + deletes, coins);
    WorthConcat(bundles, deletes, coins);
  }
}
