/**
 The mempool tables laid over the confirmed ones: what a snapshot writes, what a block clears,
 and the combined view a wallet reads.
 */
module Overlay {
  import opened Rows
  import opened Sums
  import opened Ledger
  import opened Undo
  import opened Coins

  datatype PendingTx = PendingTx(index: nat, size: nat, fee: int, raw: seq<byte>, firstSeen: int)

  datatype Claim = Claim(source: Hash, kind: byte, vin: uint32)

  /** mempool_txs, mempool_outputs and mempool_spends. */
  datatype Mempool = Mempool(
    txs: map<Hash, PendingTx>,
    outputs: map<OutPoint, Coin>,
    spends: map<OutPoint, Claim>)

  datatype State = State(c: Confirmed, m: Mempool)

  const BLANK := State(EMPTY, Mempool(map[], map[], map[]))

  // ----- ReplaceMempool

  function FirstClaims(spends: seq<Spend>): (r: map<OutPoint, Claim>)
    ensures r.Keys == Consumed(spends)
  {
    if spends == [] then map[] else
      var n := |spends| - 1;
      assert spends == spends[..n] + [spends[n]];
      map[spends[n].outpoint := Claim(spends[n].source, spends[n].kind, spends[n].vin)] + FirstClaims(spends[..n])
  }

  /** Of several claims of one outpoint the first is stored. */
  lemma {:induction false} FirstClaimIs(spends: seq<Spend>, i: nat)
    requires i < |spends| && forall j | 0 <= j < i :: spends[j].outpoint != spends[i].outpoint
    ensures var claims := FirstClaims(spends); var o := spends[i].outpoint;
      && o in claims && claims[o].source == spends[i].source
      && claims[o].kind == spends[i].kind && claims[o].vin == spends[i].vin
    decreases |spends|
  {
    var n := |spends| - 1;
    if i == n {
      assert spends[n].outpoint !in Consumed(spends[..n]);
    } else {
      FirstClaimIs(spends[..n], i);
    }
  }

  /** A transaction both snapshots hold keeps its first_seen; a new one takes the clock. */
  function SeenAt(before: map<Hash, PendingTx>, x: Hash, now: int): int {
    if x in before then before[x].firstSeen else now
  }

  function PendingTxs(before: map<Hash, PendingTx>, txs: seq<Tx>, now: int): (r: map<Hash, PendingTx>)
    requires DistinctTxids(txs)
    ensures r.Keys == Txids(txs)
    ensures forall x | x in r :: r[x].firstSeen == SeenAt(before, x, now)
  {
    if txs == [] then map[] else
      var n := |txs| - 1;
      assert txs == txs[..n] + [txs[n]];
      PendingTxs(before, txs[..n], now)[txs[n].txid :=
        PendingTx(txs[n].index, txs[n].size, 0, txs[n].raw, SeenAt(before, txs[n].txid, now))]
  }

  /** A snapshot row holds its transaction's place in the listing, size and bytes. */
  lemma {:induction false} PendingRowIs(before: map<Hash, PendingTx>, txs: seq<Tx>, now: int, i: nat)
    requires DistinctTxids(txs) && i < |txs|
    ensures var row := PendingTxs(before, txs, now)[txs[i].txid];
      row.index == txs[i].index && row.size == txs[i].size && row.raw == txs[i].raw
    decreases |txs|
  {
    var n := |txs| - 1;
    assert txs[i].txid in Txids(txs);
    if i == n {
    } else {
      assert txs[n].txid != txs[i].txid;
      PendingRowIs(before, txs[..n], now, i);
    }
  }

  predicate ClaimedBy(claim: Claim, x: Hash) {
    claim.source == x && claim.kind == SPEND_REGULAR
  }

  /** The coins a snapshot transaction takes from blocks, takes from the snapshot, and makes. */
  function TakenConfirmed(rows: Outputs, m: Mempool, x: Hash): map<OutPoint, int> {
    map o | o in m.spends && ClaimedBy(m.spends[o], x) && o in rows :: rows[o].coin.value
  }

  function TakenPending(m: Mempool, x: Hash): map<OutPoint, int> {
    map o | o in m.spends && ClaimedBy(m.spends[o], x) && o in m.outputs :: m.outputs[o].value
  }

  function MadePending(m: Mempool, x: Hash): map<OutPoint, int> {
    map o | o in m.outputs && o.source == x && o.kind == KIND_REGULAR :: m.outputs[o].value
  }

  ghost function PendingGap(rows: Outputs, m: Mempool, x: Hash): int {
    Sum(TakenConfirmed(rows, m, x)) + Sum(TakenPending(m, x)) - Sum(MadePending(m, x))
  }

  ghost function WithPendingFees(rows: Outputs, m: Mempool): Mempool {
    m.(txs := map x | x in m.txs :: m.txs[x].(fee := AtLeastZero(PendingGap(rows, m, x))))
  }

  /** The snapshot that replaces the old one. The insert of a repeated txid fails the whole transaction. */
  ghost function Replaced(s: State, pool: Pool, now: int): Option<State> {
    if !DistinctTxids(pool.txs) then None else
      Some(State(s.c, WithPendingFees(s.c.outputs,
        Mempool(PendingTxs(s.m.txs, pool.txs, now), FirstCoins(pool.creates), FirstClaims(pool.spends)))))
  }

  // ----- Apply and Rollback on the whole state

  function Cleared(m: Mempool, b: Block): Mempool {
    Mempool(m.txs - Txids(b.txs), m.outputs - Created(b.creates), m.spends - Consumed(b.spends))
  }

  ghost function AppliedState(s: State, w: Write): State {
    State(Applied(s.c, w.block, w.marks), Cleared(s.m, w.block))
  }

  function RolledBackState(s: State, height: nat): State {
    State(RolledBack(s.c, height), s.m)
  }

  // ----- Overlay consistency

  /** No coin sits in both output tables, and no snapshot spend names a coin a block already spent. */
  ghost predicate Consistent(s: State) {
    s.c.outputs.Keys !! s.m.outputs.Keys && forall o :: !StaleAt(s.c.outputs, s.m, o)
  }

  predicate StaleAt(rows: Outputs, m: Mempool, o: OutPoint) {
    o in m.spends && o in rows && rows[o].spent.Some?
  }

  lemma RowsStayConsistent(held: Outputs, m: Mempool, w: Write, rows: Outputs)
    requires After(held, w.block, w.marks, rows)
    requires held.Keys !! m.outputs.Keys && forall o :: !StaleAt(held, m, o)
    ensures rows.Keys !! Cleared(m, w.block).outputs.Keys && forall o :: !StaleAt(rows, Cleared(m, w.block), o)
  {
    forall o
      ensures !(o in rows && o in Cleared(m, w.block).outputs)
      ensures !StaleAt(rows, Cleared(m, w.block), o)
    {
      assert AfterAt(held, w.block, w.marks, rows, o);
      assert !StaleAt(held, m, o);
    }
  }

  /** Every block keeps the overlay consistent, whatever it carries. */
  lemma ApplyKeepsConsistent(s: State, w: Write)
    requires Consistent(s) && Picks(w.block.height, w.block.spends, w.marks)
    ensures Consistent(AppliedState(s, w))
  {
    AppliedRows(s.c, w);
    RowsStayConsistent(s.c.outputs, s.m, w, Applied(s.c, w.block, w.marks).outputs);
  }

  /** Every rollback keeps it too, to any depth: it only removes rows and marks. */
  lemma RollbackKeepsConsistent(s: State, height: nat)
    requires Consistent(s)
    ensures Consistent(RolledBackState(s, height))
  {
    forall o
      ensures !StaleAt(RolledBack(s.c, height).outputs, s.m, o)
    {
      assert !StaleAt(s.c.outputs, s.m, o);
    }
  }

  /** The node built the snapshot on the tip the index holds. */
  ghost predicate PoolFits(rows: Outputs, pool: Pool) {
    && Created(pool.creates) !! rows.Keys
    && forall o | o in Consumed(pool.spends) && o in rows :: rows[o].spent == None
  }

  /** A snapshot makes the overlay consistent exactly when it fits the indexed tip. */
  lemma ReplaceMakesConsistent(s: State, pool: Pool, now: int)
    requires Replaced(s, pool, now).Some?
    ensures Consistent(Replaced(s, pool, now).value) <==> PoolFits(s.c.outputs, pool)
  {
    var t := Replaced(s, pool, now).value;
    assert t.m.outputs.Keys == Created(pool.creates) && t.m.spends.Keys == Consumed(pool.spends);
    if !PoolFits(s.c.outputs, pool) && Created(pool.creates) !! s.c.outputs.Keys {
      var o :| o in Consumed(pool.spends) && o in s.c.outputs && s.c.outputs[o].spent != None;
      assert StaleAt(t.c.outputs, t.m, o);
    }
  }

  // ----- The combined view

  type Owner = Address -> bool

  /** Confirmed coins of `mine`: unspent, in an indexed block, and claimed by nothing in the mempool. */
  function Settled(s: State, mine: Owner): map<OutPoint, Coin> {
    map o | o in s.c.outputs && mine(s.c.outputs[o].coin.address) && s.c.outputs[o].spent == None
            && s.c.outputs[o].height in s.c.blocks && o !in s.m.spends :: s.c.outputs[o].coin
  }

  /** Unconfirmed coins of `mine` that nothing else in the mempool claims. */
  function Pending(s: State, mine: Owner): map<OutPoint, Coin> {
    map o | o in s.m.outputs && mine(s.m.outputs[o].address) && o !in s.m.spends :: s.m.outputs[o]
  }

  /** What the utxo route lists for `mine`. */
  function View(s: State, mine: Owner): map<OutPoint, Coin> {
    Settled(s, mine) + Pending(s, mine)
  }

  lemma ListedOnce(s: State, mine: Owner)
    requires Consistent(s)
    ensures Settled(s, mine).Keys !! Pending(s, mine).Keys
  {
  }
}
