/** The sums the API reports, against the coins it lists; and the fees of a snapshot. */
module Balances {
  import opened Rows
  import opened Sums
  import opened Ledger
  import opened Undo
  import opened Coins
  import opened Overlay

  // ----- Stats and MempoolStats, as sums over rows

  function Funded(rows: Outputs, mine: Owner): map<OutPoint, int> {
    map o | o in rows && mine(rows[o].coin.address) :: rows[o].coin.value
  }

  function SpentRows(rows: Outputs, mine: Owner): map<OutPoint, int> {
    map o | o in rows && mine(rows[o].coin.address) && rows[o].spent.Some? :: rows[o].coin.value
  }

  function PendingFunded(m: Mempool, mine: Owner): map<OutPoint, int> {
    map o | o in m.outputs && mine(m.outputs[o].address) :: m.outputs[o].value
  }

  function ClaimedRows(rows: Outputs, m: Mempool, mine: Owner): map<OutPoint, int> {
    map o | o in m.spends && o in rows && mine(rows[o].coin.address) :: rows[o].coin.value
  }

  function ClaimedPending(m: Mempool, mine: Owner): map<OutPoint, int> {
    map o | o in m.spends && o in m.outputs && mine(m.outputs[o].address) :: m.outputs[o].value
  }

  /** chain_stats.funded - chain_stats.spent + mempool_stats.funded - mempool_stats.spent. */
  ghost function ReportedBalance(s: State, mine: Owner): int {
    Sum(Funded(s.c.outputs, mine)) - Sum(SpentRows(s.c.outputs, mine))
    + Sum(PendingFunded(s.m, mine)) - (Sum(ClaimedRows(s.c.outputs, s.m, mine)) + Sum(ClaimedPending(s.m, mine)))
  }

  /** The sum of the combined utxo list. */
  ghost function ListedBalance(s: State, mine: Owner): int {
    Sum(Values(Settled(s, mine))) + Sum(Values(Pending(s, mine)))
  }

  /** Coins a block already spent that the snapshot claims again: both sides subtract them. */
  function CountedTwice(s: State, mine: Owner): map<OutPoint, int> {
    map o | o in s.m.spends && o in s.c.outputs && s.c.outputs[o].spent.Some? && mine(s.c.outputs[o].coin.address) ::
      s.c.outputs[o].coin.value
  }

  function ClaimedUnspent(s: State, mine: Owner): map<OutPoint, int> {
    map o | o in s.m.spends && o in s.c.outputs && s.c.outputs[o].spent == None && mine(s.c.outputs[o].coin.address) ::
      s.c.outputs[o].coin.value
  }

  lemma FundedSplits(s: State, mine: Owner)
    requires RowsAnchored(s.c)
    ensures Funded(s.c.outputs, mine)
      == SpentRows(s.c.outputs, mine) + (ClaimedUnspent(s, mine) + Values(Settled(s, mine)))
    ensures SpentRows(s.c.outputs, mine).Keys !! (ClaimedUnspent(s, mine) + Values(Settled(s, mine))).Keys
    ensures ClaimedUnspent(s, mine).Keys !! Values(Settled(s, mine)).Keys
  {
    var all := Funded(s.c.outputs, mine);
    var parts := SpentRows(s.c.outputs, mine) + (ClaimedUnspent(s, mine) + Values(Settled(s, mine)));
    SameEverywhere(all, parts);
    forall o
      ensures SameAt(all, parts, o)
    {
      assert OutputAnchored(s.c, o);
    }
  }

  lemma ClaimedSplits(s: State, mine: Owner)
    ensures ClaimedRows(s.c.outputs, s.m, mine) == CountedTwice(s, mine) + ClaimedUnspent(s, mine)
    ensures CountedTwice(s, mine).Keys !! ClaimedUnspent(s, mine).Keys
  {
  }

  lemma PendingSplits(s: State, mine: Owner)
    ensures PendingFunded(s.m, mine) == ClaimedPending(s.m, mine) + Values(Pending(s, mine))
    ensures ClaimedPending(s.m, mine).Keys !! Values(Pending(s, mine)).Keys
  {
  }

  /**
   For every owner the reported sums equal the sum of the listed coins, short by exactly the value of
   the coins counted twice. On a consistent overlay there are none, and no coin is listed twice.
   */
  lemma BalanceAgrees(s: State, mine: Owner)
    requires Sound(s.c)
    ensures ReportedBalance(s, mine) == ListedBalance(s, mine) - Sum(CountedTwice(s, mine))
    ensures Consistent(s) ==> ReportedBalance(s, mine) == ListedBalance(s, mine) == Sum(Values(View(s, mine)))
  {
    FundedSplits(s, mine);
    ClaimedSplits(s, mine);
    PendingSplits(s, mine);
    SumUnion(ClaimedUnspent(s, mine), Values(Settled(s, mine)));
    SumUnion(SpentRows(s.c.outputs, mine), ClaimedUnspent(s, mine) + Values(Settled(s, mine)));
    SumUnion(CountedTwice(s, mine), ClaimedUnspent(s, mine));
    SumUnion(ClaimedPending(s.m, mine), Values(Pending(s, mine)));
    if Consistent(s) {
      NothingTwice(s, mine);
      ListedOnce(s, mine);
      ValuesUnion(Settled(s, mine), Pending(s, mine));
      SumUnion(Values(Settled(s, mine)), Values(Pending(s, mine)));
    }
  }

  lemma NothingTwice(s: State, mine: Owner)
    requires Consistent(s)
    ensures CountedTwice(s, mine) == map[]
  {
    forall o
      ensures o !in CountedTwice(s, mine)
    {
      assert !StaleAt(s.c.outputs, s.m, o);
    }
  }

  // ----- Mempool fees telescope

  function ClaimSources(m: Mempool): map<OutPoint, Hash> {
    map o | o in m.spends && m.spends[o].kind == SPEND_REGULAR :: m.spends[o].source
  }

  function MakerSources(m: Mempool): map<OutPoint, Hash> {
    map o | o in m.outputs && o.kind == KIND_REGULAR :: o.source
  }

  function Everyone(a: Address): bool {
    true
  }

  /** Every claim and every coin of the snapshot belongs to one of its transactions. */
  ghost predicate Attributed(m: Mempool) {
    && (forall o | o in m.spends :: m.spends[o].kind == SPEND_REGULAR && m.spends[o].source in m.txs)
    && (forall o | o in m.outputs :: o.kind == KIND_REGULAR && o.source in m.txs)
  }

  ghost function SnapshotGaps(rows: Outputs, m: Mempool): map<Hash, int> {
    map x | x in m.txs :: PendingGap(rows, m, x)
  }

  function SnapshotFees(m: Mempool): map<Hash, int> {
    map x | x in m.txs :: m.txs[x].fee
  }

  lemma TakenByGroup(rows: Outputs, m: Mempool, x: Hash)
    ensures TakenConfirmed(rows, m, x) == Group(ClaimedRows(rows, m, Everyone), ClaimSources(m), x)
    ensures TakenPending(m, x) == Group(ClaimedPending(m, Everyone), ClaimSources(m), x)
    ensures MadePending(m, x) == Group(PendingFunded(m, Everyone), MakerSources(m), x)
  {
  }

  lemma AllGrouped(rows: Outputs, m: Mempool)
    requires Attributed(m)
    ensures Grouped(ClaimedRows(rows, m, Everyone), ClaimSources(m), m.txs.Keys) == ClaimedRows(rows, m, Everyone)
    ensures Grouped(ClaimedPending(m, Everyone), ClaimSources(m), m.txs.Keys) == ClaimedPending(m, Everyone)
    ensures Grouped(PendingFunded(m, Everyone), MakerSources(m), m.txs.Keys) == PendingFunded(m, Everyone)
  {
  }

  /** The three group sums behind the gap of every snapshot transaction. */
  ghost function PoolTakenSums(rows: Outputs, m: Mempool): map<Hash, int> {
    GroupSums(ClaimedRows(rows, m, Everyone), ClaimSources(m), m.txs.Keys)
  }

  ghost function ChainedSums(m: Mempool): map<Hash, int> {
    GroupSums(ClaimedPending(m, Everyone), ClaimSources(m), m.txs.Keys)
  }

  ghost function PoolMadeSums(m: Mempool): map<Hash, int> {
    GroupSums(PendingFunded(m, Everyone), MakerSources(m), m.txs.Keys)
  }

  /** What each transaction makes, less what it takes from the snapshot. */
  ghost function NetMade(m: Mempool): map<Hash, int> {
    Differences(PoolMadeSums(m), ChainedSums(m))
  }

  lemma DifferencesAre(gaps: map<Hash, int>, a: map<Hash, int>, b: map<Hash, int>)
    requires gaps.Keys == a.Keys == b.Keys && forall x | x in gaps :: gaps[x] == a[x] - b[x]
    ensures gaps == Differences(a, b)
  {
  }

  lemma GapKeys(rows: Outputs, m: Mempool)
    ensures SnapshotGaps(rows, m).Keys == PoolTakenSums(rows, m).Keys == NetMade(m).Keys == m.txs.Keys
  {
  }

  lemma GapIsNet(rows: Outputs, m: Mempool, x: Hash)
    requires x in m.txs
    ensures x in SnapshotGaps(rows, m) && x in PoolTakenSums(rows, m) && x in NetMade(m)
    ensures SnapshotGaps(rows, m)[x] == PoolTakenSums(rows, m)[x] - NetMade(m)[x]
  {
    TakenByGroup(rows, m, x);
  }

  lemma GapsAreNet(rows: Outputs, m: Mempool)
    ensures PoolTakenSums(rows, m).Keys == NetMade(m).Keys
    ensures SnapshotGaps(rows, m) == Differences(PoolTakenSums(rows, m), NetMade(m))
  {
    GapKeys(rows, m);
    forall x | x in m.txs
      ensures SnapshotGaps(rows, m)[x] == PoolTakenSums(rows, m)[x] - NetMade(m)[x]
    {
      GapIsNet(rows, m, x);
    }
    DifferencesAre(SnapshotGaps(rows, m), PoolTakenSums(rows, m), NetMade(m));
  }

  /** Coins of the snapshot that nothing in it claims. */
  function Leftover(m: Mempool): map<OutPoint, int> {
    map o | o in m.outputs && o !in m.spends :: m.outputs[o].value
  }

  lemma LeftoverSplits(m: Mempool)
    ensures PendingFunded(m, Everyone) == ClaimedPending(m, Everyone) + Leftover(m)
    ensures ClaimedPending(m, Everyone).Keys !! Leftover(m).Keys
  {
  }

  lemma GapsTelescope(rows: Outputs, m: Mempool)
    requires Attributed(m)
    ensures Sum(SnapshotGaps(rows, m)) == Sum(ClaimedRows(rows, m, Everyone)) - Sum(Leftover(m))
  {
    GapsAreNet(rows, m);
    SumMinus(PoolTakenSums(rows, m), NetMade(m));
    SumMinus(PoolMadeSums(m), ChainedSums(m));
    SumByGroup(ClaimedRows(rows, m, Everyone), ClaimSources(m), m.txs.Keys);
    SumByGroup(ClaimedPending(m, Everyone), ClaimSources(m), m.txs.Keys);
    SumByGroup(PendingFunded(m, Everyone), MakerSources(m), m.txs.Keys);
    AllGrouped(rows, m);
    LeftoverSplits(m);
    SumUnion(ClaimedPending(m, Everyone), Leftover(m));
  }

  lemma FeesWritten(rows: Outputs, m: Mempool)
    ensures var gaps, fees := SnapshotGaps(rows, m), SnapshotFees(WithPendingFees(rows, m));
      gaps.Keys == fees.Keys && forall x | x in gaps :: fees[x] == AtLeastZero(gaps[x])
  {
  }

  /**
   The summed fee of a snapshot is the confirmed value it consumes less the unconfirmed value it leaves
   unclaimed, however long its chains of transactions, exactly when every transaction covers its outputs.
   */
  lemma SnapshotFeesTelescope(rows: Outputs, m: Mempool)
    requires Attributed(m)
    ensures Sum(SnapshotFees(WithPendingFees(rows, m))) == Sum(ClaimedRows(rows, m, Everyone)) - Sum(Leftover(m))
       <==> forall x | x in m.txs :: PendingGap(rows, m, x) >= 0
  {
    GapsTelescope(rows, m);
    FeesWritten(rows, m);
    SumFloored(SnapshotGaps(rows, m), SnapshotFees(WithPendingFees(rows, m)));
    assert forall x | x in m.txs :: x in SnapshotGaps(rows, m) && SnapshotGaps(rows, m)[x] == PendingGap(rows, m, x);
  }

  // ----- What a block takes out of the snapshot

  /** After a block the snapshot holds exactly the transactions the block does not list, rows as they were. */
  lemma BlockTakesListed(s: State, w: Write, x: Hash)
    ensures x in AppliedState(s, w).m.txs <==> x in s.m.txs && forall t | t in w.block.txs :: t.txid != x
    ensures x in AppliedState(s, w).m.txs ==> AppliedState(s, w).m.txs[x] == s.m.txs[x]
  {
    if x in Txids(w.block.txs) {
      var i :| 0 <= i < |w.block.txs| && w.block.txs[i].txid == x;
      assert w.block.txs[i] in w.block.txs;
    }
  }

  /** The fees of the snapshot transactions that the block lists. */
  function FeesTaken(m: Mempool, b: Block): map<Hash, int> {
    map x | x in m.txs && x in Txids(b.txs) :: m.txs[x].fee
  }

  lemma FeesSplit(m: Mempool, b: Block)
    ensures SnapshotFees(m) == SnapshotFees(Cleared(m, b)) + FeesTaken(m, b)
    ensures SnapshotFees(Cleared(m, b)).Keys !! FeesTaken(m, b).Keys
  {
  }

  /** The summed fee of the snapshot falls by exactly the fees of the transactions the block takes. */
  lemma BlockTakesFees(s: State, w: Write)
    ensures Sum(SnapshotFees(AppliedState(s, w).m)) == Sum(SnapshotFees(s.m)) - Sum(FeesTaken(s.m, w.block))
  {
    FeesSplit(s.m, w.block);
    SumUnion(SnapshotFees(Cleared(s.m, w.block)), FeesTaken(s.m, w.block));
  }
}
