/** Fees of snapshot transactions: what they add up to, and that confirming one does not change its fee. */
module Snapshots {
  import opened Rows
  import opened Sums
  import opened Ledger
  import opened Undo
  import opened Prepare
  import opened Coins
  import opened Overlay
  import opened Balances
  import opened Conservation
  import opened Takeover

  lemma {:induction false} ClaimFromSpend(spends: seq<Spend>, o: OutPoint) returns (i: nat)
    requires o in Consumed(spends)
    ensures i < |spends| && spends[i].outpoint == o
    ensures FirstClaims(spends)[o] == Claim(spends[i].source, spends[i].kind, spends[i].vin)
    decreases |spends|
  {
    var n := |spends| - 1;
    assert spends == spends[..n] + [spends[n]];
    if o in Consumed(spends[..n]) {
      i := ClaimFromSpend(spends[..n], o);
    } else {
      i := n;
    }
  }

  lemma PoolAttributed(m: Mempool, pool: seq<Entry>, codec: Codec)
    requires m.outputs == FirstCoins(AllCreates(pool, codec)) && m.spends == FirstClaims(AllSpends(pool))
    requires m.txs.Keys == Txids(TxRows(Infos(pool)))
    ensures Attributed(m)
  {
    var ids := m.txs.Keys;
    assert forall i | 0 <= i < |pool| :: TxRows(Infos(pool))[i].txid == pool[i].info.txid;
    EntryRowsHaveTx(pool, codec, ids);
    forall o | o in m.spends
      ensures m.spends[o].kind == SPEND_REGULAR && m.spends[o].source in m.txs
    {
      var i := ClaimFromSpend(AllSpends(pool), o);
      assert TakenByTx(AllSpends(pool)[i], ids);
    }
    forall o | o in m.outputs
      ensures o.kind == KIND_REGULAR && o.source in m.txs
    {
      var i :| 0 <= i < |AllCreates(pool, codec)| && AllCreates(pool, codec)[i].outpoint == o;
      assert MadeByTx(AllCreates(pool, codec)[i], ids);
    }
  }

  /**
   After any snapshot the summary's total fee is the confirmed value consumed less the unconfirmed value
   left unclaimed, exactly when every transaction of the snapshot covers its outputs.
   */
  lemma MempoolFeesTelescope(s0: State, pool: seq<Entry>, codec: Codec, now: int, s: State)
    requires PreparedPool(pool, codec).Some? && Replaced(s0, PreparedPool(pool, codec).value, now) == Some(s)
    ensures Sum(SnapshotFees(s.m)) == Sum(ClaimedRows(s.c.outputs, s.m, Everyone)) - Sum(Leftover(s.m))
       <==> forall x | x in s.m.txs :: PendingGap(s.c.outputs, s.m, x) >= 0
  {
    var rows := PreparedPool(pool, codec).value;
    var raw := Mempool(PendingTxs(s0.m.txs, rows.txs, now), FirstCoins(rows.creates), FirstClaims(rows.spends));
    PoolAttributed(raw, pool, codec);
    SnapshotFeesTelescope(s0.c.outputs, raw);
    SumsIgnoreFees(s.c.outputs, raw, s.m);
    forall x
      ensures PendingGap(s.c.outputs, s.m, x) == PendingGap(s.c.outputs, raw, x)
    {
      GapIgnoresFees(s.c.outputs, raw, s.m, x);
    }
  }

  lemma GapIgnoresFees(rows: Outputs, m: Mempool, n: Mempool, x: Hash)
    requires n.outputs == m.outputs && n.spends == m.spends
    ensures PendingGap(rows, n, x) == PendingGap(rows, m, x)
  {
  }

  lemma SumsIgnoreFees(rows: Outputs, m: Mempool, n: Mempool)
    requires n.outputs == m.outputs && n.spends == m.spends
    ensures ClaimedRows(rows, n, Everyone) == ClaimedRows(rows, m, Everyone) && Leftover(n) == Leftover(m)
  {
  }

  // ----- Fee stability

  /** Each block repeats a snapshot coin only as the snapshot holds it: one txid names one transaction. */
  ghost predicate Agrees(m: Mempool, b: Block) {
    forall o :: AgreesAt(m, b, o)
  }

  ghost predicate AgreesAt(m: Mempool, b: Block, o: OutPoint) {
    o in m.outputs && o in Created(b.creates) ==> FirstCoins(b.creates)[o] == m.outputs[o]
  }

  /** No coin sits in both output tables. */
  ghost predicate CoinsApart(s: State) {
    s.c.outputs.Keys !! s.m.outputs.Keys
  }

  /** The value an input had at snapshot time, from either table. */
  ghost predicate WorthAtSnapshot(s: State, o: OutPoint, v: int) {
    || (o in s.c.outputs && v == s.c.outputs[o].coin.value)
    || (o in s.m.outputs && v == s.m.outputs[o].value)
  }

  /** However blocks land after the snapshot, every coin it knew keeps its value. */
  lemma {:induction false} KnownCoinsKeepValue(s: State, writes: seq<Write>, o: OutPoint)
    requires CoinsApart(s) && ApplyAll(s.c, writes).Some?
    requires forall i | 0 <= i < |writes| :: Agrees(s.m, writes[i].block)
    ensures o in s.c.outputs ==> o in ApplyAll(s.c, writes).value.outputs
    ensures o in ApplyAll(s.c, writes).value.outputs && (o in s.c.outputs || o in s.m.outputs) ==>
      WorthAtSnapshot(s, o, ApplyAll(s.c, writes).value.outputs[o].coin.value)
    decreases |writes|
  {
    if writes == [] {
    } else {
      var n := |writes| - 1;
      KnownCoinsKeepValue(s, writes[..n], o);
      AppliedRowAt(ApplyAll(s.c, writes[..n]).value, writes[n], o);
      assert AgreesAt(s.m, writes[n].block, o);
    }
  }

  /** The claims the snapshot records for `x`, and the marks a block records for it. */
  function ClaimsOf(m: Mempool, x: Hash): set<OutPoint> {
    set o | o in m.spends && ClaimedBy(m.spends[o], x)
  }

  function MarksFor(marks: map<OutPoint, Mark>, x: Hash): set<OutPoint> {
    set o | o in marks && marks[o].source == x && marks[o].kind == SPEND_REGULAR
  }

  function MadeIn(b: Block, x: Hash): set<OutPoint> {
    set o | o in Created(b.creates) && o.source == x && o.kind == KIND_REGULAR
  }

  function MadeInPool(m: Mempool, x: Hash): set<OutPoint> {
    set o | o in m.outputs && o.source == x && o.kind == KIND_REGULAR
  }

  /** `w` mines snapshot transaction `x` on `c`: same inputs, same outputs, inputs held, no output there yet. */
  ghost predicate Mines(s: State, c: Confirmed, w: Write, x: Hash) {
    && MarksFor(w.marks, x) == ClaimsOf(s.m, x)
    && MadeIn(w.block, x) == MadeInPool(s.m, x)
    && ClaimsOf(s.m, x) <= s.c.outputs.Keys + s.m.outputs.Keys
    && ClaimsOf(s.m, x) <= c.outputs.Keys + Created(w.block.creates)
    && MadeIn(w.block, x) !! c.outputs.Keys
  }

  lemma InputsAgree(s: State, held: Outputs, w: Write, rows: Outputs, x: Hash)
    requires CoinsApart(s) && After(held, w.block, w.marks, rows) && Below(held, w.block.height)
    requires MarksFor(w.marks, x) == ClaimsOf(s.m, x)
    requires ClaimsOf(s.m, x) <= s.c.outputs.Keys + s.m.outputs.Keys
    requires ClaimsOf(s.m, x) <= held.Keys + Created(w.block.creates)
    requires forall o | o in ClaimsOf(s.m, x) && o in rows :: WorthAtSnapshot(s, o, rows[o].coin.value)
    ensures InputValues(rows, x, w.block.height) == TakenConfirmed(s.c.outputs, s.m, x) + TakenPending(s.m, x)
    ensures TakenConfirmed(s.c.outputs, s.m, x).Keys !! TakenPending(s.m, x).Keys
  {
    var ins, want := InputValues(rows, x, w.block.height), TakenConfirmed(s.c.outputs, s.m, x) + TakenPending(s.m, x);
    SameEverywhere(ins, want);
    forall o
      ensures SameAt(ins, want, o)
    {
      assert AfterAt(held, w.block, w.marks, rows, o);
      assert o in MarksFor(w.marks, x) <==> o in ClaimsOf(s.m, x);
    }
  }

  lemma OutputsAgree(s: State, held: Outputs, w: Write, rows: Outputs, x: Hash)
    requires After(held, w.block, w.marks, rows) && Below(held, w.block.height) && Agrees(s.m, w.block)
    requires MadeIn(w.block, x) == MadeInPool(s.m, x) && MadeIn(w.block, x) !! held.Keys
    ensures OutputValues(rows, x, w.block.height) == MadePending(s.m, x)
  {
    var outs, want := OutputValues(rows, x, w.block.height), MadePending(s.m, x);
    SameEverywhere(outs, want);
    forall o
      ensures SameAt(outs, want, o)
    {
      assert AfterAt(held, w.block, w.marks, rows, o) && AgreesAt(s.m, w.block, o);
      assert o in MadeIn(w.block, x) <==> o in MadeInPool(s.m, x);
    }
  }

  lemma RowFeeStable(s: State, held: Outputs, w: Write, rows: Outputs, x: Hash)
    requires CoinsApart(s) && After(held, w.block, w.marks, rows) && Below(held, w.block.height) && Agrees(s.m, w.block)
    requires MarksFor(w.marks, x) == ClaimsOf(s.m, x) && MadeIn(w.block, x) == MadeInPool(s.m, x)
    requires ClaimsOf(s.m, x) <= s.c.outputs.Keys + s.m.outputs.Keys
    requires ClaimsOf(s.m, x) <= held.Keys + Created(w.block.creates)
    requires MadeIn(w.block, x) !! held.Keys
    requires forall o | o in ClaimsOf(s.m, x) && o in rows :: WorthAtSnapshot(s, o, rows[o].coin.value)
    ensures Fee(rows, x, w.block.height) == AtLeastZero(PendingGap(s.c.outputs, s.m, x))
  {
    InputsAgree(s, held, w, rows, x);
    OutputsAgree(s, held, w, rows, x);
    SumUnion(TakenConfirmed(s.c.outputs, s.m, x), TakenPending(s.m, x));
  }

  /** A transaction new to the index gets the snapshot's fee. */
  lemma FirstFeeStable(s0: State, pool: Pool, now: int, s: State, writes: seq<Write>, w: Write, x: Hash)
    requires Replaced(s0, pool, now) == Some(s) && x in Txids(pool.txs)
    requires Sound(s.c) && CoinsApart(s) && ApplyAll(s.c, writes).Some? && Allowed(ApplyAll(s.c, writes).value, w)
    requires Agrees(s.m, w.block) && forall i | 0 <= i < |writes| :: Agrees(s.m, writes[i].block)
    requires Mines(s, ApplyAll(s.c, writes).value, w, x)
    requires x in Txids(w.block.txs) && x !in ApplyAll(s.c, writes).value.txs
    ensures var next := Applied(ApplyAll(s.c, writes).value, w.block, w.marks);
      x in s.m.txs && x in next.txs && next.txs[x].fee == s.m.txs[x].fee
  {
    var c := ApplyAll(s.c, writes).value;
    var next := Applied(c, w.block, w.marks);
    ApplyAllSound(s.c, writes);
    SoundBelow(c);
    AppliedRows(c, w);
    forall o | o in ClaimsOf(s.m, x) && o in next.outputs
      ensures WorthAtSnapshot(s, o, next.outputs[o].coin.value)
    {
      LandedWorth(s, writes, w, o);
    }
    RowFeeStable(s, c.outputs, w, next.outputs, x);
    FeeRecorded(c, w, x);
    SnapshotFee(s0, pool, now, x);
  }

  /**
   A snapshot transaction whose inputs were all known is recorded with the same fee when a block confirms it, after
   any blocks at all, whether its unconfirmed ancestors were mined in the same block or before, if and only if no
   earlier block listed it with another fee. A trade listed and skipped was recorded with whatever it moved: nothing.
   */
  lemma FeeStable(s0: State, pool: Pool, now: int, s: State, writes: seq<Write>, w: Write, x: Hash)
    requires Replaced(s0, pool, now) == Some(s) && x in Txids(pool.txs)
    requires Sound(s.c) && CoinsApart(s) && ApplyAll(s.c, writes).Some? && Allowed(ApplyAll(s.c, writes).value, w)
    requires Agrees(s.m, w.block) && forall i | 0 <= i < |writes| :: Agrees(s.m, writes[i].block)
    requires x in Txids(w.block.txs)
    requires x !in ApplyAll(s.c, writes).value.txs ==> Mines(s, ApplyAll(s.c, writes).value, w, x)
    ensures var c := ApplyAll(s.c, writes).value; var next := Applied(c, w.block, w.marks);
      && x in s.m.txs && x in next.txs
      && (next.txs[x].fee == s.m.txs[x].fee <==> (x in c.txs ==> c.txs[x].fee == s.m.txs[x].fee))
  {
    var c := ApplyAll(s.c, writes).value;
    SnapshotFee(s0, pool, now, x);
    if x in c.txs {
      ApplyAllSound(s.c, writes);
      ListedRowStays(c, w, x);
    } else {
      FirstFeeStable(s0, pool, now, s, writes, w, x);
    }
  }

  lemma SnapshotFee(s0: State, pool: Pool, now: int, x: Hash)
    requires Replaced(s0, pool, now).Some? && x in Txids(pool.txs)
    ensures var s := Replaced(s0, pool, now).value;
      x in s.m.txs && s.m.txs[x].fee == AtLeastZero(PendingGap(s.c.outputs, s.m, x))
  {
    var raw := Mempool(PendingTxs(s0.m.txs, pool.txs, now), FirstCoins(pool.creates), FirstClaims(pool.spends));
    GapIgnoresFees(s0.c.outputs, raw, WithPendingFees(s0.c.outputs, raw), x);
  }

  /** The same in the snapshot: the gap, and nothing when the inputs fall short. */
  lemma SnapshotFeeOnRecord(s0: State, pool: Pool, now: int, x: Hash)
    requires Replaced(s0, pool, now).Some? && x in Txids(pool.txs)
    ensures var s := Replaced(s0, pool, now).value; var gap := PendingGap(s.c.outputs, s.m, x);
      x in s.m.txs && (gap >= 0 ==> s.m.txs[x].fee == gap) && (gap < 0 ==> s.m.txs[x].fee == 0)
  {
    SnapshotFee(s0, pool, now, x);
  }

  lemma LandedWorth(s: State, writes: seq<Write>, w: Write, o: OutPoint)
    requires CoinsApart(s) && ApplyAll(s.c, writes).Some? && Allowed(ApplyAll(s.c, writes).value, w)
    requires Agrees(s.m, w.block) && forall i | 0 <= i < |writes| :: Agrees(s.m, writes[i].block)
    requires o in s.c.outputs || o in s.m.outputs
    requires o in Applied(ApplyAll(s.c, writes).value, w.block, w.marks).outputs
    ensures WorthAtSnapshot(s, o, Applied(ApplyAll(s.c, writes).value, w.block, w.marks).outputs[o].coin.value)
  {
    KnownCoinsKeepValue(s, writes, o);
    AppliedRowAt(ApplyAll(s.c, writes).value, w, o);
    assert AgreesAt(s.m, w.block, o);
  }

  // ----- In the node's own terms

  lemma MarkIsInput(
    w: Write, height: nat, hash: Hash, nb: NodeBlock, index: BlockIndex, codec: Codec, e: Entry, k: nat, o: OutPoint)
    requires Prepared(height, hash, nb, index, codec) == Some(w.block)
    requires Picks(w.block.height, w.block.spends, w.marks) && DistinctSpends(w.block.spends)
    requires DistinctTxids(w.block.txs) && ExecutedAt(nb.transactions, index.txs, k, e)
    requires o in MarksFor(w.marks, e.info.txid)
    ensures o in e.tx.inputs
  {
    var i :| 0 <= i < |w.block.spends| && w.block.spends[i].outpoint == o
      && w.marks[o] == MarkOf(w.block.height, w.block.spends[i]);
    SpendsExplained(height, hash, nb, index, codec, w.block, w.block.spends[i]);
    var j: nat, n: nat :| InputRow(nb, index, j, n, w.block.spends[i]);
    OneListing(w.block.txs, index, j, k);
  }

  lemma InputIsMarked(
    w: Write, height: nat, hash: Hash, nb: NodeBlock, index: BlockIndex, codec: Codec, e: Entry, k: nat, o: OutPoint)
    requires Prepared(height, hash, nb, index, codec) == Some(w.block)
    requires Picks(w.block.height, w.block.spends, w.marks) && DistinctSpends(w.block.spends)
    requires DistinctTxids(w.block.txs) && ExecutedAt(nb.transactions, index.txs, k, e)
    requires o in e.tx.inputs
    ensures o in MarksFor(w.marks, e.info.txid)
  {
    var n :| 0 <= n < |e.tx.inputs| && e.tx.inputs[n] == o;
    var row := Spend(o, e.info.txid, SPEND_REGULAR, Wrap32(n));
    assert InputRow(nb, index, k, n, row);
    SpendsExplained(height, hash, nb, index, codec, w.block, row);
    var i :| 0 <= i < |w.block.spends| && w.block.spends[i] == row;
    PickOf(w, i);
  }

  /** The block's marks for `e` are its inputs. */
  lemma EntryMarks(w: Write, height: nat, hash: Hash, nb: NodeBlock, index: BlockIndex, codec: Codec, e: Entry)
    requires Prepared(height, hash, nb, index, codec) == Some(w.block)
    requires Picks(w.block.height, w.block.spends, w.marks) && DistinctSpends(w.block.spends)
    requires DistinctTxids(w.block.txs) && e in Executed(nb.transactions, index.txs)
    ensures MarksFor(w.marks, e.info.txid) == set o | o in e.tx.inputs
  {
    InExecuted(nb.transactions, index.txs, e);
    var k: nat :| ExecutedAt(nb.transactions, index.txs, k, e);
    forall o
      ensures o in MarksFor(w.marks, e.info.txid) <==> o in e.tx.inputs
    {
      if o in MarksFor(w.marks, e.info.txid) {
        MarkIsInput(w, height, hash, nb, index, codec, e, k, o);
      } else if o in e.tx.inputs {
        InputIsMarked(w, height, hash, nb, index, codec, e, k, o);
      }
    }
  }

  lemma OneListing(txs: seq<Tx>, index: BlockIndex, j: nat, k: nat)
    requires txs == TxRows(index.txs) && DistinctTxids(txs) && j < |index.txs| && k < |index.txs|
    requires index.txs[j].txid == index.txs[k].txid
    ensures j == k
  {
    assert txs[j].txid == index.txs[j].txid && txs[k].txid == index.txs[k].txid;
  }

  /** The outpoints one entry creates. */
  function MadeBy(e: Entry): set<OutPoint> {
    set i | 0 <= i < |e.tx.outputs| :: OutPoint(KIND_REGULAR, e.info.txid, Wrap32(i))
  }

  /** No market output of the block poses as an output of transaction `x`. */
  predicate ApartFrom(index: BlockIndex, x: Hash) {
    forall p | p in index.marketCreates && p.outpoint.kind == KIND_REGULAR :: p.outpoint.source != x
  }

  lemma MadeIsOutput(
    b: Block, height: nat, hash: Hash, nb: NodeBlock, index: BlockIndex, codec: Codec, e: Entry, k: nat, o: OutPoint)
    requires Prepared(height, hash, nb, index, codec) == Some(b) && ApartFrom(index, e.info.txid)
    requires DistinctTxids(b.txs) && ExecutedAt(nb.transactions, index.txs, k, e)
    requires o in MadeIn(b, e.info.txid)
    ensures o in MadeBy(e)
  {
    var i :| 0 <= i < |b.creates| && b.creates[i].outpoint == o;
    CreatesExplained(height, hash, nb, index, codec, b, b.creates[i]);
    var j: nat, n: nat :| TransactionRow(nb, index, codec, j, n, b.creates[i]);
    OneListing(b.txs, index, j, k);
  }

  lemma OutputIsMade(
    b: Block, height: nat, hash: Hash, nb: NodeBlock, index: BlockIndex, codec: Codec, e: Entry, k: nat, n: nat)
    requires Prepared(height, hash, nb, index, codec) == Some(b)
    requires ExecutedAt(nb.transactions, index.txs, k, e) && n < |e.tx.outputs|
    ensures OutPoint(KIND_REGULAR, e.info.txid, Wrap32(n)) in MadeIn(b, e.info.txid)
  {
    var row := Output(OutPoint(KIND_REGULAR, e.info.txid, Wrap32(n)), CoinOf(e.tx.outputs[n], codec), true);
    assert TransactionRow(nb, index, codec, k, n, row);
    CreatesExplained(height, hash, nb, index, codec, b, row);
  }

  /** What the block makes under the id of `e` is what `e` makes. */
  lemma EntryMade(b: Block, height: nat, hash: Hash, nb: NodeBlock, index: BlockIndex, codec: Codec, e: Entry)
    requires Prepared(height, hash, nb, index, codec) == Some(b) && ApartFrom(index, e.info.txid)
    requires DistinctTxids(b.txs) && e in Executed(nb.transactions, index.txs)
    ensures MadeIn(b, e.info.txid) == MadeBy(e)
  {
    InExecuted(nb.transactions, index.txs, e);
    var k: nat :| ExecutedAt(nb.transactions, index.txs, k, e);
    forall o | o in MadeIn(b, e.info.txid)
      ensures o in MadeBy(e)
    {
      MadeIsOutput(b, height, hash, nb, index, codec, e, k, o);
    }
    forall o | o in MadeBy(e)
      ensures o in MadeIn(b, e.info.txid)
    {
      var n :| 0 <= n < |e.tx.outputs| && o == OutPoint(KIND_REGULAR, e.info.txid, Wrap32(n));
      OutputIsMade(b, height, hash, nb, index, codec, e, k, n);
    }
  }

  lemma OneEntry(pool: seq<Entry>, e: Entry, f: Entry)
    requires DistinctTxids(TxRows(Infos(pool))) && e in pool && f in pool && e.info.txid == f.info.txid
    ensures e == f
  {
    var i :| 0 <= i < |pool| && pool[i] == e;
    var j :| 0 <= j < |pool| && pool[j] == f;
    var txs := TxRows(Infos(pool));
    assert txs[i].txid == e.info.txid && txs[j].txid == f.info.txid;
  }

  lemma ClaimIsInput(pool: seq<Entry>, codec: Codec, e: Entry, row: Spend)
    requires DistinctTxids(TxRows(Infos(pool))) && e in pool
    requires row in AllSpends(pool) && row.source == e.info.txid
    ensures row.outpoint in e.tx.inputs
  {
    InAll(pool, codec, Output(row.outpoint, Coin([], 0, "", ""), true), row);
    var f :| f in pool && row in TxSpends(f);
    OneEntry(pool, e, f);
  }

  lemma DistinctClaim(spends: seq<Spend>, row: Spend)
    requires DistinctSpends(spends) && row in spends
    ensures row.outpoint in FirstClaims(spends)
    ensures FirstClaims(spends)[row.outpoint] == Claim(row.source, row.kind, row.vin)
  {
    var j :| 0 <= j < |spends| && spends[j] == row;
    var i := ClaimFromSpend(spends, row.outpoint);
    assert i == j;
  }

  lemma InputIsClaimed(pool: seq<Entry>, codec: Codec, e: Entry, o: OutPoint)
    requires DistinctSpends(AllSpends(pool)) && e in pool && o in e.tx.inputs
    ensures var claims := FirstClaims(AllSpends(pool)); o in claims && ClaimedBy(claims[o], e.info.txid)
  {
    var n :| 0 <= n < |e.tx.inputs| && e.tx.inputs[n] == o;
    var row := TxSpends(e)[n];
    InAll(pool, codec, Output(o, Coin([], 0, "", ""), true), row);
    DistinctClaim(AllSpends(pool), row);
  }

  /** The snapshot's claims for `e` are its inputs too. */
  lemma EntryClaims(m: Mempool, pool: seq<Entry>, codec: Codec, e: Entry)
    requires m.spends == FirstClaims(AllSpends(pool)) && DistinctSpends(AllSpends(pool))
    requires DistinctTxids(TxRows(Infos(pool))) && e in pool
    ensures ClaimsOf(m, e.info.txid) == set o | o in e.tx.inputs
  {
    var all := AllSpends(pool);
    forall o
      ensures o in ClaimsOf(m, e.info.txid) <==> o in e.tx.inputs
    {
      if o in ClaimsOf(m, e.info.txid) {
        var i := ClaimFromSpend(all, o);
        ClaimIsInput(pool, codec, e, all[i]);
      } else if o in e.tx.inputs {
        InputIsClaimed(pool, codec, e, o);
      }
    }
  }

  lemma PendingIsMade(pool: seq<Entry>, codec: Codec, e: Entry, row: Output)
    requires DistinctTxids(TxRows(Infos(pool))) && e in pool
    requires row in AllCreates(pool, codec) && row.outpoint.source == e.info.txid
    ensures row.outpoint in MadeBy(e)
  {
    InAll(pool, codec, row, Spend(row.outpoint, e.info.txid, 0, 0));
    var f :| f in pool && row in TxCreates(f, codec);
    OneEntry(pool, e, f);
  }

  lemma MadeIsPending(pool: seq<Entry>, codec: Codec, e: Entry, o: OutPoint)
    requires e in pool && o in MadeBy(e)
    ensures o in Created(AllCreates(pool, codec))
  {
    var n :| 0 <= n < |e.tx.outputs| && o == OutPoint(KIND_REGULAR, e.info.txid, Wrap32(n));
    var row := TxCreates(e, codec)[n];
    InAll(pool, codec, row, Spend(o, e.info.txid, 0, 0));
  }

  lemma EntryPending(m: Mempool, pool: seq<Entry>, codec: Codec, e: Entry)
    requires m.outputs == FirstCoins(AllCreates(pool, codec))
    requires DistinctTxids(TxRows(Infos(pool))) && e in pool
    ensures MadeInPool(m, e.info.txid) == MadeBy(e)
  {
    var all := AllCreates(pool, codec);
    forall o
      ensures o in MadeInPool(m, e.info.txid) <==> o in MadeBy(e)
    {
      if o in MadeInPool(m, e.info.txid) {
        var i :| 0 <= i < |all| && all[i].outpoint == o;
        PendingIsMade(pool, codec, e, all[i]);
      } else if o in MadeBy(e) {
        MadeIsPending(pool, codec, e, o);
      }
    }
  }

  /** Every input is known at snapshot time, and held or made by the block that mines the transaction on `c`. */
  ghost predicate InputsKnown(s: State, c: Confirmed, b: Block, e: Entry) {
    forall o | o in e.tx.inputs ::
      && (o in s.c.outputs || o in s.m.outputs)
      && (o in c.outputs || o in Created(b.creates))
  }

  /** No output row is under the transaction's id yet. */
  ghost predicate NotYet(c: Confirmed, x: Hash) {
    forall o | o in c.outputs && o.kind == KIND_REGULAR :: o.source != x
  }

  /** An entry the node lists in its mempool and executes in a block is mined as the snapshot holds it. */
  lemma EntryMined(
    s0: State, pool: seq<Entry>, now: int, s: State, c: Confirmed, w: Write,
    codec: Codec, height: nat, hash: Hash, nb: NodeBlock, index: BlockIndex, e: Entry)
    requires PreparedPool(pool, codec).Some? && Replaced(s0, PreparedPool(pool, codec).value, now) == Some(s)
    requires Prepared(height, hash, nb, index, codec) == Some(w.block) && ApartFrom(index, e.info.txid)
    requires Picks(w.block.height, w.block.spends, w.marks)
    requires DistinctSpends(AllSpends(pool)) && DistinctSpends(w.block.spends) && DistinctTxids(w.block.txs)
    requires e in pool && e in Executed(nb.transactions, index.txs)
    requires InputsKnown(s, c, w.block, e) && NotYet(c, e.info.txid)
    ensures Mines(s, c, w, e.info.txid)
  {
    SnapshotTables(s0, pool, codec, now);
    EntryMarks(w, height, hash, nb, index, codec, e);
    EntryMade(w.block, height, hash, nb, index, codec, e);
    EntryClaims(s.m, pool, codec, e);
    EntryPending(s.m, pool, codec, e);
  }

  lemma EntryListed(b: Block, index: BlockIndex, nb: NodeBlock, e: Entry)
    requires b.txs == TxRows(index.txs) && |nb.transactions| == |index.txs| && e in Executed(nb.transactions, index.txs)
    ensures e.info.txid in Txids(b.txs)
  {
    InExecuted(nb.transactions, index.txs, e);
    var k: nat :| ExecutedAt(nb.transactions, index.txs, k, e);
    assert b.txs[k].txid == e.info.txid;
  }

  lemma EntryPooled(pool: seq<Entry>, e: Entry)
    requires e in pool
    ensures e.info.txid in Txids(TxRows(Infos(pool)))
  {
    var i :| 0 <= i < |pool| && pool[i] == e;
    assert TxRows(Infos(pool))[i].txid == e.info.txid;
  }

  /**
   Fee stability in the node's terms: a transaction listed in the mempool with all inputs known, and executed in a
   later block, is recorded with the snapshot's fee if and only if no earlier block listed it with another one.
   */
  lemma MinedFeeStable(
    s0: State, pool: seq<Entry>, now: int, s: State, writes: seq<Write>, w: Write,
    codec: Codec, height: nat, hash: Hash, nb: NodeBlock, index: BlockIndex, e: Entry)
    requires PreparedPool(pool, codec).Some? && Replaced(s0, PreparedPool(pool, codec).value, now) == Some(s)
    requires Sound(s.c) && CoinsApart(s) && ApplyAll(s.c, writes).Some? && Allowed(ApplyAll(s.c, writes).value, w)
    requires Prepared(height, hash, nb, index, codec) == Some(w.block) && ApartFrom(index, e.info.txid)
    requires DistinctSpends(AllSpends(pool)) && DistinctSpends(w.block.spends) && DistinctTxids(w.block.txs)
    requires e in pool && e in Executed(nb.transactions, index.txs)
    requires e.info.txid !in ApplyAll(s.c, writes).value.txs ==>
      InputsKnown(s, ApplyAll(s.c, writes).value, w.block, e) && NotYet(ApplyAll(s.c, writes).value, e.info.txid)
    requires Agrees(s.m, w.block) && forall i | 0 <= i < |writes| :: Agrees(s.m, writes[i].block)
    ensures var x, c := e.info.txid, ApplyAll(s.c, writes).value;
      var next := Applied(c, w.block, w.marks);
      && x in s.m.txs && x in next.txs
      && (next.txs[x].fee == s.m.txs[x].fee <==> (x in c.txs ==> c.txs[x].fee == s.m.txs[x].fee))
  {
    var x, c := e.info.txid, ApplyAll(s.c, writes).value;
    if x !in c.txs {
      EntryMined(s0, pool, now, s, c, w, codec, height, hash, nb, index, e);
    }
    EntryListed(w.block, index, nb, e);
    EntryPooled(pool, e);
    FeeStable(s0, PreparedPool(pool, codec).value, now, s, writes, w, x);
  }
}
