/** A block taking over unconfirmed payments must leave every balance alone. */
module Takeover {
  import opened Rows
  import opened Sums
  import opened Ledger
  import opened Undo
  import opened Prepare
  import opened Coins
  import opened Overlay
  import opened Conservation

  /** What the block adds and removes with no transaction of the snapshot behind it. */
  function OutsideCoins(b: Block, mined: set<OutPoint>, mine: Owner): map<OutPoint, Coin> {
    var made := FirstCoins(b.creates);
    map o | o in made && o !in mined && mine(made[o].address) :: made[o]
  }

  /** The block takes no unconfirmed coin that it does not also mine. */
  ghost predicate AncestorClosed(m: Mempool, b: Block) {
    forall o :: ClosedAt(m, b, o)
  }

  predicate ClosedAt(m: Mempool, b: Block, o: OutPoint) {
    o in Consumed(b.spends) && o in m.outputs ==> o in Created(b.creates)
  }

  /**
   No snapshot transaction claims a coin the block makes outside the snapshot, unless the block removes it again. The
   index may well hold claims of coins it has not seen: a deposit it missed, or one that only this block brings.
   */
  ghost predicate Unclaimed(m: Mempool, b: Block, mined: set<OutPoint>, removed: set<OutPoint>) {
    forall o :: UnclaimedAt(m, b, mined, removed, o)
  }

  predicate UnclaimedAt(m: Mempool, b: Block, mined: set<OutPoint>, removed: set<OutPoint>, o: OutPoint) {
    o in Created(b.creates) && o !in mined && o in m.spends ==> o in removed
  }

  /**
   `b` mines transactions of the snapshot: they create `mined` and take `taken`, with the coins and
   claims the snapshot holds; the rest of its creates are fresh and the rest of its spends are `removed`.
   */
  ghost predicate MinesFrom(s: State, b: Block, mined: set<OutPoint>, taken: set<OutPoint>, removed: set<OutPoint>) {
    && mined <= Created(b.creates) && Consumed(b.spends) == taken + removed
    && taken <= s.m.spends.Keys
    && forall o :: MinedAt(s, b, mined, o)
  }

  ghost predicate MinedAt(s: State, b: Block, mined: set<OutPoint>, o: OutPoint) {
    && (o in mined && o in Created(b.creates) ==> o in s.m.outputs && s.m.outputs[o] == FirstCoins(b.creates)[o])
    && (o in Created(b.creates) && o !in mined ==> o !in s.m.outputs && o !in s.c.outputs)
    && (o in s.c.outputs ==> o !in s.m.outputs && s.c.outputs[o].height in s.c.blocks)
  }

  ghost function Expected(s: State, b: Block, mined: set<OutPoint>, removed: set<OutPoint>, mine: Owner)
    : map<OutPoint, Coin>
  {
    (View(s, mine) + OutsideCoins(b, mined, mine)) - removed
  }

  lemma ViewMovesAt(
    s: State, w: Write, t: State, mined: set<OutPoint>, taken: set<OutPoint>, removed: set<OutPoint>, mine: Owner,
    o: OutPoint)
    requires AfterAt(s.c.outputs, w.block, w.marks, t.c.outputs, o) && t.m == Cleared(s.m, w.block)
    requires forall k | k in s.c.blocks || k == w.block.height :: k in t.c.blocks
    requires mined <= Created(w.block.creates) && Consumed(w.block.spends) == taken + removed
    requires taken <= s.m.spends.Keys && MinedAt(s, w.block, mined, o)
    requires ClosedAt(s.m, w.block, o) && UnclaimedAt(s.m, w.block, mined, removed, o)
    ensures SameAt(View(t, mine), Expected(s, w.block, mined, removed, mine), o)
  {
    if o in Created(w.block.creates) {
    } else if o in Consumed(w.block.spends) {
    }
  }

  lemma ViewBreaksAt(
    s: State, w: Write, t: State, mined: set<OutPoint>, taken: set<OutPoint>, removed: set<OutPoint>, mine: Owner,
    o: OutPoint)
    requires AfterAt(s.c.outputs, w.block, w.marks, t.c.outputs, o) && t.m == Cleared(s.m, w.block)
    requires forall k | k in s.c.blocks || k == w.block.height :: k in t.c.blocks
    requires mined <= Created(w.block.creates) && Consumed(w.block.spends) == taken + removed
    requires taken <= s.m.spends.Keys && MinedAt(s, w.block, mined, o)
    requires !ClosedAt(s.m, w.block, o) && mine(s.m.outputs[o].address)
    ensures o in View(t, mine) && o !in Expected(s, w.block, mined, removed, mine)
  {
  }

  lemma ViewHidesAt(
    s: State, w: Write, t: State, mined: set<OutPoint>, taken: set<OutPoint>, removed: set<OutPoint>, mine: Owner,
    o: OutPoint)
    requires AfterAt(s.c.outputs, w.block, w.marks, t.c.outputs, o) && t.m == Cleared(s.m, w.block)
    requires mined <= Created(w.block.creates) && Consumed(w.block.spends) == taken + removed
    requires taken <= s.m.spends.Keys && MinedAt(s, w.block, mined, o)
    requires !UnclaimedAt(s.m, w.block, mined, removed, o) && mine(FirstCoins(w.block.creates)[o].address)
    ensures o !in View(t, mine) && o in Expected(s, w.block, mined, removed, mine)
  {
  }

  lemma MinedCoinAt(s: State, w: Write, t: State, mined: set<OutPoint>, mine: Owner, o: OutPoint)
    requires AfterAt(s.c.outputs, w.block, w.marks, t.c.outputs, o) && t.m == Cleared(s.m, w.block)
    requires forall k | k in s.c.blocks || k == w.block.height :: k in t.c.blocks
    requires mined <= Created(w.block.creates) && MinedAt(s, w.block, mined, o)
    requires o in mined && o !in Consumed(w.block.spends)
    ensures o in Pending(s, mine) <==> o in Settled(t, mine)
    ensures o !in Pending(t, mine) && o !in Settled(s, mine)
    ensures o in Pending(s, mine) ==> Settled(t, mine)[o] == Pending(s, mine)[o]
  {
  }

  lemma BlocksGrow(c: Confirmed, w: Write)
    ensures forall k | k in c.blocks || k == w.block.height :: k in Applied(c, w.block, w.marks).blocks
  {
  }

  lemma ViewMoves(
    s: State, w: Write, t: State, mined: set<OutPoint>, taken: set<OutPoint>, removed: set<OutPoint>, mine: Owner)
    requires After(s.c.outputs, w.block, w.marks, t.c.outputs) && t.m == Cleared(s.m, w.block)
    requires forall k | k in s.c.blocks || k == w.block.height :: k in t.c.blocks
    requires MinesFrom(s, w.block, mined, taken, removed)
    requires AncestorClosed(s.m, w.block) && Unclaimed(s.m, w.block, mined, removed)
    ensures View(t, mine) == Expected(s, w.block, mined, removed, mine)
  {
    var have, want := View(t, mine), Expected(s, w.block, mined, removed, mine);
    SameEverywhere(have, want);
    forall o
      ensures SameAt(have, want, o)
    {
      assert AfterAt(s.c.outputs, w.block, w.marks, t.c.outputs, o);
      assert MinedAt(s, w.block, mined, o) && ClosedAt(s.m, w.block, o);
      assert UnclaimedAt(s.m, w.block, mined, removed, o);
      ViewMovesAt(s, w, t, mined, taken, removed, mine, o);
    }
  }

  /** Every owner's list changes by the outside creates and removals alone. */
  ghost predicate MovesOnlyOutside(s: State, t: State, b: Block, mined: set<OutPoint>, removed: set<OutPoint>) {
    forall mine: Owner :: View(t, mine) == Expected(s, b, mined, removed, mine)
  }

  lemma AllViewsMove(s: State, w: Write, t: State, mined: set<OutPoint>, taken: set<OutPoint>, removed: set<OutPoint>)
    requires After(s.c.outputs, w.block, w.marks, t.c.outputs) && t.m == Cleared(s.m, w.block)
    requires forall k | k in s.c.blocks || k == w.block.height :: k in t.c.blocks
    requires MinesFrom(s, w.block, mined, taken, removed)
    requires AncestorClosed(s.m, w.block) && Unclaimed(s.m, w.block, mined, removed)
    ensures MovesOnlyOutside(s, t, w.block, mined, removed)
  {
    forall mine: Owner
      ensures View(t, mine) == Expected(s, w.block, mined, removed, mine)
    {
      ViewMoves(s, w, t, mined, taken, removed, mine);
    }
  }

  lemma SomeViewBreaks(s: State, w: Write, t: State, mined: set<OutPoint>, taken: set<OutPoint>, removed: set<OutPoint>)
    requires After(s.c.outputs, w.block, w.marks, t.c.outputs) && t.m == Cleared(s.m, w.block)
    requires forall k | k in s.c.blocks || k == w.block.height :: k in t.c.blocks
    requires MinesFrom(s, w.block, mined, taken, removed) && !AncestorClosed(s.m, w.block)
    ensures !MovesOnlyOutside(s, t, w.block, mined, removed)
  {
    var o :| !ClosedAt(s.m, w.block, o);
    ViewBreaks(s, w, t, mined, taken, removed, o);
    Differ(s, t, w.block, mined, removed, a => true, o);
  }

  lemma SomeViewHides(s: State, w: Write, t: State, mined: set<OutPoint>, taken: set<OutPoint>, removed: set<OutPoint>)
    requires After(s.c.outputs, w.block, w.marks, t.c.outputs) && t.m == Cleared(s.m, w.block)
    requires MinesFrom(s, w.block, mined, taken, removed) && !Unclaimed(s.m, w.block, mined, removed)
    ensures !MovesOnlyOutside(s, t, w.block, mined, removed)
  {
    var o :| !UnclaimedAt(s.m, w.block, mined, removed, o);
    ViewHides(s, w, t, mined, taken, removed, o);
    Differ(s, t, w.block, mined, removed, a => true, o);
  }

  /** A coin the block takes but does not mine is listed to everyone who owns it, and should not be. */
  lemma ViewBreaks(
    s: State, w: Write, t: State, mined: set<OutPoint>, taken: set<OutPoint>, removed: set<OutPoint>, o: OutPoint)
    requires After(s.c.outputs, w.block, w.marks, t.c.outputs) && t.m == Cleared(s.m, w.block)
    requires forall k | k in s.c.blocks || k == w.block.height :: k in t.c.blocks
    requires MinesFrom(s, w.block, mined, taken, removed) && !ClosedAt(s.m, w.block, o)
    ensures forall mine: Owner | mine(s.m.outputs[o].address) ::
      o in View(t, mine) && o !in Expected(s, w.block, mined, removed, mine)
  {
    assert AfterAt(s.c.outputs, w.block, w.marks, t.c.outputs, o);
    assert MinedAt(s, w.block, mined, o);
    forall mine: Owner | mine(s.m.outputs[o].address)
      ensures o in View(t, mine) && o !in Expected(s, w.block, mined, removed, mine)
    {
      ViewBreaksAt(s, w, t, mined, taken, removed, mine, o);
    }
  }

  /** A coin the block makes that a snapshot transaction already claims is hidden from everyone who owns it. */
  lemma ViewHides(
    s: State, w: Write, t: State, mined: set<OutPoint>, taken: set<OutPoint>, removed: set<OutPoint>, o: OutPoint)
    requires After(s.c.outputs, w.block, w.marks, t.c.outputs) && t.m == Cleared(s.m, w.block)
    requires MinesFrom(s, w.block, mined, taken, removed) && !UnclaimedAt(s.m, w.block, mined, removed, o)
    ensures forall mine: Owner | mine(FirstCoins(w.block.creates)[o].address) ::
      o !in View(t, mine) && o in Expected(s, w.block, mined, removed, mine)
  {
    assert AfterAt(s.c.outputs, w.block, w.marks, t.c.outputs, o);
    assert MinedAt(s, w.block, mined, o);
    forall mine: Owner | mine(FirstCoins(w.block.creates)[o].address)
      ensures o !in View(t, mine) && o in Expected(s, w.block, mined, removed, mine)
    {
      ViewHidesAt(s, w, t, mined, taken, removed, mine, o);
    }
  }

  lemma Differ(s: State, t: State, b: Block, mined: set<OutPoint>, removed: set<OutPoint>, mine: Owner, o: OutPoint)
    requires o in View(t, mine) <==> o !in Expected(s, b, mined, removed, mine)
    ensures !MovesOnlyOutside(s, t, b, mined, removed)
  {
  }

  /**
   The whole view moves only by the outside creates and removals, for every owner, exactly when the block takes no
   unconfirmed coin it does not also mine, and makes none that the snapshot already claims. Claims of coins nobody
   holds are allowed.
   */
  lemma BlockTakesOver(s: State, w: Write, mined: set<OutPoint>, taken: set<OutPoint>, removed: set<OutPoint>)
    requires Allowed(s.c, w) && MinesFrom(s, w.block, mined, taken, removed)
    ensures MovesOnlyOutside(s, AppliedState(s, w), w.block, mined, removed)
       <==> AncestorClosed(s.m, w.block) && Unclaimed(s.m, w.block, mined, removed)
  {
    AppliedRows(s.c, w);
    BlocksGrow(s.c, w);
    var t := AppliedState(s, w);
    if !AncestorClosed(s.m, w.block) {
      SomeViewBreaks(s, w, t, mined, taken, removed);
    } else if !Unclaimed(s.m, w.block, mined, removed) {
      SomeViewHides(s, w, t, mined, taken, removed);
    } else {
      AllViewsMove(s, w, t, mined, taken, removed);
    }
  }

  // ----- In the node's own terms

  lemma {:induction false} RowsInAll(es: seq<Entry>, codec: Codec, i: nat)
    requires i < |es|
    ensures forall r | r in TxCreates(es[i], codec) :: r in AllCreates(es, codec)
    decreases |es|
  {
    var n := |es| - 1;
    if i < n {
      RowsInAll(es[..n], codec, i);
    }
  }

  lemma {:induction false} RowFromEntry(es: seq<Entry>, codec: Codec, r: Output) returns (i: nat)
    requires r in AllCreates(es, codec)
    ensures i < |es| && r in TxCreates(es[i], codec)
    decreases |es|
  {
    var n := |es| - 1;
    if r in TxCreates(es[n], codec) {
      i := n;
    } else {
      i := RowFromEntry(es[..n], codec, r);
    }
  }

  lemma DistinctMember(creates: seq<Output>, r: Output)
    requires DistinctCreates(creates) && r in creates
    ensures r.outpoint in FirstCoins(creates) && FirstCoins(creates)[r.outpoint] == r.coin
  {
    var i :| 0 <= i < |creates| && creates[i] == r;
    DistinctCoin(creates, i);
  }

  /** A transaction both lists carry creates the same coins in both. */
  lemma SharedCoin(es: seq<Entry>, pool: seq<Entry>, creates: seq<Output>, codec: Codec, o: OutPoint)
    requires forall e | e in es :: e in pool
    requires DistinctCreates(AllCreates(pool, codec)) && DistinctCreates(creates)
    requires forall r | r in AllCreates(es, codec) :: r in creates
    requires o in Created(AllCreates(es, codec))
    ensures o in Created(AllCreates(pool, codec)) && o in Created(creates)
    ensures FirstCoins(AllCreates(pool, codec))[o] == FirstCoins(creates)[o]
  {
    var k :| 0 <= k < |AllCreates(es, codec)| && AllCreates(es, codec)[k].outpoint == o;
    var r := AllCreates(es, codec)[k];
    var i := RowFromEntry(es, codec, r);
    assert es[i] in pool;
    var j :| 0 <= j < |pool| && pool[j] == es[i];
    RowsInAll(pool, codec, j);
    DistinctMember(AllCreates(pool, codec), r);
    DistinctMember(creates, r);
  }

  function OutsideCreates(nb: NodeBlock, index: BlockIndex, codec: Codec): seq<Output> {
    CoinbaseRows(nb, codec) + PlacedRows(index.deposits, codec) + PlacedRows(index.marketCreates, codec)
  }

  function OutsideSpends(index: BlockIndex, hash: Hash): seq<Spend> {
    BundleRows(index.bundleSpends) + DeleteRows(index.marketDeletes, hash)
  }

  lemma PreparedSplits(height: nat, hash: Hash, nb: NodeBlock, index: BlockIndex, codec: Codec, b: Block)
    requires Prepared(height, hash, nb, index, codec) == Some(b)
    ensures var es := Executed(nb.transactions, index.txs);
      && Created(b.creates) == Created(AllCreates(es, codec)) + Created(OutsideCreates(nb, index, codec))
      && Consumed(b.spends) == Consumed(AllSpends(es)) + Consumed(OutsideSpends(index, hash))
      && (forall r | r in AllCreates(es, codec) :: r in b.creates)
  {
    var es := Executed(nb.transactions, index.txs);
    var front, deposits := CoinbaseRows(nb, codec), PlacedRows(index.deposits, codec);
    var market := PlacedRows(index.marketCreates, codec);
    CreatedConcat(front + AllCreates(es, codec) + deposits, market);
    CreatedConcat(front + AllCreates(es, codec), deposits);
    CreatedConcat(front, AllCreates(es, codec));
    CreatedConcat(front + deposits, market);
    CreatedConcat(front, deposits);
    var bundles, deletes := BundleRows(index.bundleSpends), DeleteRows(index.marketDeletes, hash);
    assert AllSpends(es) + bundles + deletes == AllSpends(es) + (bundles + deletes);
    ConsumedConcat(AllSpends(es), bundles + deletes);
  }

  /** The snapshot's coins and the block's other coins are new to the index, and apart from each other. */
  ghost predicate Meets(rows: Outputs, pool: seq<Entry>, nb: NodeBlock, index: BlockIndex, codec: Codec) {
    var made, outside := Created(AllCreates(pool, codec)), Created(OutsideCreates(nb, index, codec));
    made !! rows.Keys && outside !! rows.Keys && outside !! made
  }

  lemma PreparedMines(
    s: State, b: Block, pool: seq<Entry>, codec: Codec, height: nat, hash: Hash, nb: NodeBlock, index: BlockIndex)
    requires Prepared(height, hash, nb, index, codec) == Some(b)
    requires RowsAnchored(s.c)
    requires s.m.outputs == FirstCoins(AllCreates(pool, codec)) && s.m.spends.Keys == Consumed(AllSpends(pool))
    requires DistinctCreates(AllCreates(pool, codec)) && DistinctCreates(b.creates)
    requires Meets(s.c.outputs, pool, nb, index, codec)
    requires forall e | e in Executed(nb.transactions, index.txs) :: e in pool
    ensures var es := Executed(nb.transactions, index.txs);
      MinesFrom(s, b, Created(AllCreates(es, codec)), Consumed(AllSpends(es)), Consumed(OutsideSpends(index, hash)))
  {
    var es := Executed(nb.transactions, index.txs);
    var mined := Created(AllCreates(es, codec));
    PreparedSplits(height, hash, nb, index, codec, b);
    TakenClaimed(es, pool, codec);
    forall o
      ensures MinedAt(s, b, mined, o)
    {
      assert OutputAnchored(s.c, o);
      if o in mined {
        SharedCoin(es, pool, b.creates, codec, o);
      }
    }
  }

  lemma {:induction false} SpendsInAll(es: seq<Entry>, o: OutPoint)
    ensures o in Consumed(AllSpends(es)) <==> exists e | e in es :: o in e.tx.inputs
    decreases |es|
  {
    if es == [] {
    } else {
      var n := |es| - 1;
      SpendsInAll(es[..n], o);
      ConsumedConcat(AllSpends(es[..n]), TxSpends(es[n]));
      InputsConsumed(es[n], o);
      assert es == es[..n] + [es[n]];
    }
  }

  lemma InputsConsumed(e: Entry, o: OutPoint)
    ensures o in Consumed(TxSpends(e)) <==> o in e.tx.inputs
  {
    if o in e.tx.inputs {
      var i :| 0 <= i < |e.tx.inputs| && e.tx.inputs[i] == o;
      assert TxSpends(e)[i].outpoint == o;
    }
  }

  lemma TakenClaimed(es: seq<Entry>, pool: seq<Entry>, codec: Codec)
    requires forall e | e in es :: e in pool
    ensures Consumed(AllSpends(es)) <= Consumed(AllSpends(pool))
  {
    forall o | o in Consumed(AllSpends(es))
      ensures o in Consumed(AllSpends(pool))
    {
      SpendsInAll(es, o);
      SpendsInAll(pool, o);
    }
  }

  /** Every mined coin the block leaves unspent moves between the lists and nothing else about it changes. */
  ghost predicate OnlyConfirms(s: State, t: State, b: Block, mined: set<OutPoint>) {
    forall o, mine: Owner | o in mined && o !in Consumed(b.spends) ::
      && SameAt(Pending(s, mine), Settled(t, mine), o)
      && o !in Pending(t, mine) && o !in Settled(s, mine)
  }

  lemma MinedCoinsConfirm(s: State, w: Write, mined: set<OutPoint>, taken: set<OutPoint>, removed: set<OutPoint>)
    requires Allowed(s.c, w) && MinesFrom(s, w.block, mined, taken, removed)
    ensures OnlyConfirms(s, AppliedState(s, w), w.block, mined)
  {
    AppliedRows(s.c, w);
    BlocksGrow(s.c, w);
    RowsConfirm(s, w, AppliedState(s, w), mined, taken, removed);
  }

  lemma RowsConfirm(s: State, w: Write, t: State, mined: set<OutPoint>, taken: set<OutPoint>, removed: set<OutPoint>)
    requires After(s.c.outputs, w.block, w.marks, t.c.outputs) && t.m == Cleared(s.m, w.block)
    requires forall k | k in s.c.blocks || k == w.block.height :: k in t.c.blocks
    requires MinesFrom(s, w.block, mined, taken, removed)
    ensures OnlyConfirms(s, t, w.block, mined)
  {
    forall o, mine: Owner | o in mined && o !in Consumed(w.block.spends)
      ensures SameAt(Pending(s, mine), Settled(t, mine), o) && o !in Pending(t, mine) && o !in Settled(s, mine)
    {
      assert AfterAt(s.c.outputs, w.block, w.marks, t.c.outputs, o);
      assert MinedAt(s, w.block, mined, o);
      MinedCoinAt(s, w, t, mined, mine, o);
    }
  }

  lemma SnapshotTables(s0: State, pool: seq<Entry>, codec: Codec, now: int)
    requires PreparedPool(pool, codec).Some? && Replaced(s0, PreparedPool(pool, codec).value, now).Some?
    ensures var s := Replaced(s0, PreparedPool(pool, codec).value, now).value;
      s.c == s0.c && s.m.outputs == FirstCoins(AllCreates(pool, codec)) && s.m.spends == FirstClaims(AllSpends(pool))
  {
  }

  lemma MinedFromTables(
    s: State, w: Write, pool: seq<Entry>, codec: Codec, height: nat, hash: Hash, nb: NodeBlock, index: BlockIndex)
    requires Prepared(height, hash, nb, index, codec) == Some(w.block) && Allowed(s.c, w) && RowsAnchored(s.c)
    requires s.m.outputs == FirstCoins(AllCreates(pool, codec)) && s.m.spends.Keys == Consumed(AllSpends(pool))
    requires DistinctCreates(AllCreates(pool, codec)) && DistinctCreates(w.block.creates)
    requires Meets(s.c.outputs, pool, nb, index, codec)
    requires forall e | e in Executed(nb.transactions, index.txs) :: e in pool
    ensures var mined := Created(AllCreates(Executed(nb.transactions, index.txs), codec));
      && (MovesOnlyOutside(s, AppliedState(s, w), w.block, mined, Consumed(OutsideSpends(index, hash)))
          <==> AncestorClosed(s.m, w.block) && Unclaimed(s.m, w.block, mined, Consumed(OutsideSpends(index, hash))))
      && OnlyConfirms(s, AppliedState(s, w), w.block, mined)
  {
    var es := Executed(nb.transactions, index.txs);
    var mined, taken := Created(AllCreates(es, codec)), Consumed(AllSpends(es));
    var removed := Consumed(OutsideSpends(index, hash));
    PreparedMines(s, w.block, pool, codec, height, hash, nb, index);
    BlockTakesOver(s, w, mined, taken, removed);
    MinedCoinsConfirm(s, w, mined, taken, removed);
  }

  /**
   Right after a snapshot, a block that mines some of its transactions changes every owner's utxo list
   only by its coinbase, deposit and market creates and its bundle and market removals, exactly when it
   takes no snapshot coin that it does not also mine and every coin it makes outside its transactions is
   unclaimed by the snapshot or removed again. Every mined coin left unspent goes from the unconfirmed list
   to the confirmed one, unchanged.
   */
  lemma MinedPaymentsKeepBalances(
    s0: State, pool: seq<Entry>, now: int, s: State, w: Write,
    codec: Codec, height: nat, hash: Hash, nb: NodeBlock, index: BlockIndex)
    requires Sound(s0.c) && PreparedPool(pool, codec).Some?
    requires Replaced(s0, PreparedPool(pool, codec).value, now) == Some(s)
    requires Prepared(height, hash, nb, index, codec) == Some(w.block) && Allowed(s.c, w)
    requires DistinctCreates(AllCreates(pool, codec)) && DistinctCreates(w.block.creates)
    requires Meets(s.c.outputs, pool, nb, index, codec)
    requires forall e | e in Executed(nb.transactions, index.txs) :: e in pool
    ensures var mined := Created(AllCreates(Executed(nb.transactions, index.txs), codec));
      && (MovesOnlyOutside(s, AppliedState(s, w), w.block, mined, Consumed(OutsideSpends(index, hash)))
          <==> && Consumed(w.block.spends) * Created(AllCreates(pool, codec)) <= Created(w.block.creates)
               && Created(OutsideCreates(nb, index, codec)) * Consumed(AllSpends(pool))
                  <= Consumed(OutsideSpends(index, hash)))
      && OnlyConfirms(s, AppliedState(s, w), w.block, mined)
  {
    SnapshotTables(s0, pool, codec, now);
    MinedFromTables(s, w, pool, codec, height, hash, nb, index);
    ClosedIs(s.m, w.block);
    UnclaimedIs(s, w.block, pool, codec, height, hash, nb, index);
  }

  lemma UnclaimedIs(
    s: State, b: Block, pool: seq<Entry>, codec: Codec, height: nat, hash: Hash, nb: NodeBlock, index: BlockIndex)
    requires Prepared(height, hash, nb, index, codec) == Some(b) && s.m.spends.Keys == Consumed(AllSpends(pool))
    requires Meets(s.c.outputs, pool, nb, index, codec)
    requires forall e | e in Executed(nb.transactions, index.txs) :: e in pool
    ensures var mined := Created(AllCreates(Executed(nb.transactions, index.txs), codec));
      Unclaimed(s.m, b, mined, Consumed(OutsideSpends(index, hash)))
      <==> Created(OutsideCreates(nb, index, codec)) * Consumed(AllSpends(pool)) <= Consumed(OutsideSpends(index, hash))
  {
    var es := Executed(nb.transactions, index.txs);
    var mined, removed := Created(AllCreates(es, codec)), Consumed(OutsideSpends(index, hash));
    PreparedSplits(height, hash, nb, index, codec, b);
    MinedFromPool(es, pool, codec);
    if Unclaimed(s.m, b, mined, removed) {
      forall o | o in Created(OutsideCreates(nb, index, codec)) && o in Consumed(AllSpends(pool))
        ensures o in removed
      {
        assert UnclaimedAt(s.m, b, mined, removed, o);
      }
    }
  }

  lemma MinedFromPool(es: seq<Entry>, pool: seq<Entry>, codec: Codec)
    requires forall e | e in es :: e in pool
    ensures Created(AllCreates(es, codec)) <= Created(AllCreates(pool, codec))
  {
    forall o | o in Created(AllCreates(es, codec))
      ensures o in Created(AllCreates(pool, codec))
    {
      var k :| 0 <= k < |AllCreates(es, codec)| && AllCreates(es, codec)[k].outpoint == o;
      var i := RowFromEntry(es, codec, AllCreates(es, codec)[k]);
      assert es[i] in pool;
      var j :| 0 <= j < |pool| && pool[j] == es[i];
      RowsInAll(pool, codec, j);
    }
  }

  lemma ClosedIs(m: Mempool, b: Block)
    ensures AncestorClosed(m, b) <==> Consumed(b.spends) * m.outputs.Keys <= Created(b.creates)
  {
    if AncestorClosed(m, b) {
      forall o | o in Consumed(b.spends) * m.outputs.Keys
        ensures o in Created(b.creates)
      {
        assert ClosedAt(m, b, o);
      }
    }
  }
}
