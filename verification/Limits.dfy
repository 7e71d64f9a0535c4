/** The smallest inputs on which a promise fails, each next to the theorem that says exactly when it holds. */
module Limits {
  import opened Rows
  import opened Sums
  import opened Ledger
  import opened Undo
  import opened Prepare
  import opened Coins
  import opened Conservation
  import opened Overlay
  import opened Takeover
  import opened Sync
  import opened Convergence
  import opened Lineage
  import opened OutPoints
  import opened Samples
  import opened Batches
  import Paging
  import Mining
  import Coinbases
  import Histories
  import Runs
  import Snapshots

  // ----- Chains of empty blocks

  /** An empty block on top of another. */
  function On(chain: Chain, hash: Hash, prev: Option<Hash>): Chain {
    chain + [LinkOf(Bare(|chain|, hash, prev))]
  }

  ghost predicate BareAt(chain: Chain, k: nat) {
    k < |chain| ==> chain[k] == LinkOf(Bare(k, chain[k].hash, chain[k].prev))
  }

  ghost predicate HashesApart(chain: Chain, j: nat, k: nat) {
    j < k < |chain| ==> chain[j].hash != chain[k].hash
  }

  lemma BareStep(step: Step, chain: Chain, states: seq<Confirmed>, m: nat) returns (d: Confirmed)
    requires Lawful(step) && Trace(step, chain, states) && |states| == m + 1 && m < |chain|
    requires BareAt(chain, m) && (forall j, k :: HashesApart(chain, j, k)) && states[m].outputs == map[]
    ensures step(states[m], chain, m) == Some(d) && d.outputs == map[]
  {
    var c, b := states[m], chain[m].rows.value;
    TraceSound(step, chain, states, m);
    assert StepIs(step, c, chain, m) && CarriesAt(c, chain, m, m);
    forall k | k in c.blocks
      ensures c.blocks[k].hash != b.hash
    {
      assert CarriesAt(c, chain, m, k) && HashesApart(chain, k, m);
    }
    assert WithCreates(c, b) == map[];
    assert Accepts(c, b) && Marked(map[], WriteOf(b).marks) == map[];
    d := Applied(c, b, WriteOf(b).marks);
  }

  lemma {:induction false} BareTrace(step: Step, chain: Chain, m: nat) returns (states: seq<Confirmed>)
    requires Lawful(step) && m <= |chain| && (forall k :: BareAt(chain, k)) && (forall j, k :: HashesApart(chain, j, k))
    ensures Trace(step, chain, states) && |states| == m + 1 && states[m].outputs == map[]
    decreases m
  {
    if m == 0 {
      states := [EMPTY];
    } else {
      var before := BareTrace(step, chain, m - 1);
      assert BareAt(chain, m - 1);
      var d := BareStep(step, chain, before, m - 1);
      TraceGrows(step, chain, before, d);
      states := before + [d];
    }
  }

  /** Empty blocks with different hashes replay, and cleanly. */
  lemma BareReplays(step: Step, chain: Chain)
    requires Lawful(step) && (forall k :: BareAt(chain, k)) && (forall j, k :: HashesApart(chain, j, k))
    ensures Replay(step, chain).Some? && Clean(step, chain)
    ensures Carries(Replay(step, chain).value, chain, |chain|)
  {
    var states := BareTrace(step, chain, |chain|);
    TraceIsReplay(step, chain, states, |chain|);
    ReplayCarries(step, chain);
    forall k: nat
      ensures CleanAt(step, chain, k)
    {
      assert BareAt(chain, k);
      assert k < |chain| ==> Consumed(chain[k].rows.value.spends) == {};
    }
  }

  // ----- A foreign genesis survives

  function GenesisOnly(hash: Hash): Chain {
    On([], hash, None)
  }

  /** Two chains of one block each: the pass ends, and the index still holds the block the node never had. */
  lemma GenesisMismatch(step: Step)
    requires Lawful(step)
    ensures var a, b := GenesisOnly(Filled(0)), GenesisOnly(Filled(1));
      && Compatible(a, b) && Replay(step, a).Some? && Replay(step, b).Some?
      && Finishes(step, Replay(step, a).value, b)
      && Final(step, Replay(step, a).value, b) != Replay(step, b).value
  {
    var a, b := GenesisOnly(Filled(0)), GenesisOnly(Filled(1));
    HashesDiffer(0, 1);
    BareReplays(step, a);
    BareReplays(step, b);
    var c := Replay(step, a).value;
    assert StartHeight(c, b) == 1 by {
      assert FindFork(c, b, 0) == None;
    }
    SharedGenesisIsExact(step, a, c, b);
  }

  // ----- A node that moves under a pass

  function FirstChain(): Chain {
    On(GenesisOnly(Filled(0)), Filled(1), Some(Filled(0)))
  }

  function SecondChain(): Chain {
    On(On(GenesisOnly(Filled(0)), Filled(2), Some(Filled(0))), Filled(3), Some(Filled(2)))
  }

  /** The index holds the first chain; the node moves to the second; the pass reads its block 2. */
  function MovedChain(): Chain {
    FirstChain() + [SecondChain()[2]]
  }

  lemma MovedIsServed()
    ensures var log := seq(3, i requires 0 <= i < 3 => Wrote(Write(MovedChain()[i].rows.value, map[])));
      ServedChain(log, 3) == MovedChain()
  {
    var log := seq(3, i requires 0 <= i < 3 => Wrote(Write(MovedChain()[i].rows.value, map[])));
    assert ServedChain(log, 1) == [LinkOf(log[0].write.block)];
    assert ServedChain(log, 2) == [LinkOf(log[0].write.block), LinkOf(log[1].write.block)];
  }

  lemma HashesApartIn(chain: Chain, ids: seq<byte>)
    requires |ids| == |chain| && forall k | 0 <= k < |ids| :: chain[k].hash == Filled(ids[k])
    requires forall j, k | 0 <= j < k < |ids| :: ids[j] != ids[k]
    ensures forall j, k :: HashesApart(chain, j, k)
  {
    forall j: nat, k: nat
      ensures HashesApart(chain, j, k)
    {
      if j < k < |chain| {
        HashesDiffer(ids[j], ids[k]);
      }
    }
  }

  lemma MovedBound()
    ensures Bound(MovedChain(), SecondChain()) && SharedGenesis(MovedChain(), SecondChain())
    ensures Linked(SecondChain()) && !Linked(MovedChain())
  {
    HashesDiffer(1, 2);
    assert !LinkedAt(MovedChain(), 2);
    forall k: nat
      ensures BoundAt(MovedChain(), SecondChain(), k) && LinkedAt(SecondChain(), k)
    {
      assert k < 3 ==> k == 0 || k == 1 || k == 2;
    }
  }

  /** Blocks g and a1, then b2 from [g, b1, b2]: the tips agree, so every later pass commits and repairs nothing. */
  lemma MovedNodeStays(step: Step)
    requires Lawful(step)
    ensures Replay(step, MovedChain()).Some? && Replay(step, SecondChain()).Some?
    ensures var c := Replay(step, MovedChain()).value;
      && Commits(step, c, SecondChain()) == [] && Finishes(step, c, SecondChain())
      && Some(c) != Replay(step, SecondChain())
  {
    HashesApartIn(MovedChain(), [0, 1, 3]);
    HashesApartIn(SecondChain(), [0, 2, 3]);
    BareReplays(step, MovedChain());
    BareReplays(step, SecondChain());
    MovedBound();
    var c := Replay(step, MovedChain()).value;
    assert StartHeight(c, SecondChain()) == 3 && MovedChain()[..3] == MovedChain();
    LinkageIsExact(step, MovedChain(), c, SecondChain());
  }

  // ----- A re-spend is not undone

  function Deposit(): Output {
    Output(OutPoint(KIND_DEPOSIT, Filled(0), 0), Coin([], 1, "", ""), true)
  }

  function SpendOf(source: Hash): Spend {
    Spend(Deposit().outpoint, source, SPEND_WITHDRAWAL, 0)
  }

  /** Block 0 creates the coin and spends it. */
  function FirstSpend(): Block {
    Bare(0, Filled(0), None).(creates := [Deposit()], spends := [SpendOf(Filled(0))])
  }

  /** Block 1 spends it again. */
  function SecondSpend(): Block {
    Bare(1, Filled(1), Some(Filled(0))).(spends := [SpendOf(Filled(1))])
  }

  lemma SpentAtGenesis() returns (c: Confirmed)
    ensures Allowed(EMPTY, WriteOf(FirstSpend())) && c == Applied(EMPTY, FirstSpend(), WriteOf(FirstSpend()).marks)
    ensures Sound(c) && NextHeight(c) == 1 && c.blocks == map[0 := BlockRowOf(FirstSpend())]
    ensures c.outputs.Keys == {Deposit().outpoint} && c.outputs[Deposit().outpoint].spent.Some?
  {
    var w := WriteOf(FirstSpend());
    ChosenMarksPick(0, w.block.spends);
    assert w.block.spends[0].outpoint == Deposit().outpoint && w.block.creates[0].outpoint == Deposit().outpoint;
    assert Deposit().outpoint in Consumed(w.block.spends) && Created(w.block.creates) == {Deposit().outpoint};
    EmptySound();
    NoCoinbase(WithCreates(EMPTY, w.block));
    AppliedSound(EMPTY, w.block, w.marks);
    c := Applied(EMPTY, w.block, w.marks);
  }

  /** Rolling block 1 back leaves the coin of block 0 unspent, though block 0 spent it. */
  lemma RespendIsLost()
    ensures var first, second := WriteOf(FirstSpend()), WriteOf(SecondSpend());
      var c := Applied(EMPTY, FirstSpend(), first.marks);
      var back := RolledBack(Applied(c, SecondSpend(), second.marks), 0);
      && Allowed(EMPTY, first) && Allowed(c, second)
      && Deposit().outpoint in c.outputs && c.outputs[Deposit().outpoint].spent.Some?
      && Deposit().outpoint in back.outputs && back.outputs[Deposit().outpoint].spent == None
  {
    HashesDiffer(0, 1);
    var c := SpentAtGenesis();
    var w := WriteOf(SecondSpend());
    ChosenMarksPick(1, w.block.spends);
    NoCoinbase(WithCreates(c, w.block));
    assert w.block.spends[0].outpoint in Consumed(w.block.spends);
    var d := Applied(c, w.block, w.marks);
    assert d.outputs[Deposit().outpoint].spent.Some? && d.outputs[Deposit().outpoint].spent.value.height == 1;
  }

  // ----- Blocks of one transaction

  /** A transaction with one output. */
  function Pays(id: byte, inputs: seq<OutPoint>): Entry {
    Entry(TxInfo(Filled(id), 0, [], false), Transaction(inputs, [NodeOutput([], "")]))
  }

  function PaidOut(id: byte): OutPoint {
    OutPoint(KIND_REGULAR, Filled(id), 0)
  }

  function BlockWith(e: Entry): NodeBlock {
    NodeBlock(Header(Filled(0), None, Filled(0)), [], false, [e.tx])
  }

  function IndexWith(e: Entry): BlockIndex {
    BlockIndex([e.info], [], [], [], [])
  }

  function RowsWith(e: Entry): Block {
    Bare(0, Filled(9), None).(txs := TxRows([e.info]), creates := TxCreates(e, Ones()), spends := TxSpends(e))
  }

  lemma OneEntryRows(e: Entry)
    ensures AllCreates([e], Ones()) == TxCreates(e, Ones()) && AllSpends([e]) == TxSpends(e)
  {
    assert [e][..0] == [];
    assert AllCreates([e][..0], Ones()) == [] && AllSpends([e][..0]) == [];
  }

  lemma PreparedWith(e: Entry)
    requires !e.info.skipped
    ensures Prepared(0, Filled(9), BlockWith(e), IndexWith(e), Ones()) == Some(RowsWith(e))
    ensures Executed(BlockWith(e).transactions, IndexWith(e).txs) == [e]
  {
    var txs, infos := [e.tx], [e.info];
    assert txs[..0] == [] && infos[..0] == [];
    assert Executed(txs[..0], infos[..0]) == [];
    assert Executed(txs, infos) == [e];
    OneEntryRows(e);
    assert EntriesDecodable([e], Ones()) && Readable(BlockWith(e), IndexWith(e), Ones());
    assert CoinbaseRows(BlockWith(e), Ones()) == [] && PlacedRows([], Ones()) == [];
    assert BundleRows([]) == [] && DeleteRows([], Filled(9)) == [];
    var b := Prepared(0, Filled(9), BlockWith(e), IndexWith(e), Ones()).value;
    assert b.creates == [] + TxCreates(e, Ones()) + [] + [] == TxCreates(e, Ones());
    assert b.spends == TxSpends(e) + [] + [] == TxSpends(e);
  }

  lemma PaysRows(id: byte, inputs: seq<OutPoint>)
    ensures TxCreates(Pays(id, inputs), Ones()) == [Output(PaidOut(id), Coin([], 1, "", ""), true)]
    ensures Created(TxCreates(Pays(id, inputs), Ones())) == {PaidOut(id)}
  {
    var creates := TxCreates(Pays(id, inputs), Ones());
    assert creates[0] == Output(PaidOut(id), Coin([], 1, "", ""), true);
  }

  lemma WriteWith(e: Entry) returns (w: Write)
    requires !e.info.skipped
    ensures w == WriteOf(RowsWith(e)) && Allowed(EMPTY, w)
  {
    w := WriteOf(RowsWith(e));
    ChosenMarksPick(0, w.block.spends);
    forall o | o in WithCreates(EMPTY, w.block)
      ensures o.kind != KIND_COINBASE
    {
      var i :| 0 <= i < |w.block.creates| && w.block.creates[i].outpoint == o;
    }
    NoCoinbase(WithCreates(EMPTY, w.block));
  }

  // ----- A snapshot that arrives after the block it was read before

  lemma PoolWith(e: Entry)
    ensures PreparedPool([e], Ones()) == Some(Pool(TxRows([e.info]), TxCreates(e, Ones()), TxSpends(e)))
  {
    OneEntryRows(e);
    assert Infos([e]) == [e.info];
  }

  lemma LandsFirst(pool: Pool, w: Write, o: OutPoint)
    requires Allowed(BLANK.c, w) && DistinctTxids(pool.txs)
    requires o in Created(pool.creates) && o in Created(w.block.creates)
    ensures PoolFits(BLANK.c.outputs, pool) && Consistent(BLANK) && Consistent(AppliedState(BLANK, w))
    ensures Replaced(AppliedState(BLANK, w), pool, 0).Some?
    ensures !Consistent(Replaced(AppliedState(BLANK, w), pool, 0).value)
  {
    ApplyKeepsConsistent(BLANK, w);
    ReplaceMakesConsistent(AppliedState(BLANK, w), pool, 0);
    assert o in AppliedState(BLANK, w).c.outputs;
  }

  /**
   The node lists a transaction; the snapshot fits the tables it is read beside; the block that executes the
   transaction lands first; writing the snapshot then brings the coin back as unconfirmed.
   */
  lemma LateSnapshot() returns (pool: Pool, w: Write)
    ensures var e := Pays(1, []);
      && PreparedPool([e], Ones()) == Some(pool)
      && Prepared(0, Filled(9), BlockWith(e), IndexWith(e), Ones()) == Some(w.block)
    ensures PoolFits(BLANK.c.outputs, pool) && Allowed(BLANK.c, w)
    ensures Consistent(BLANK) && Consistent(AppliedState(BLANK, w))
    ensures Replaced(AppliedState(BLANK, w), pool, 0).Some?
    ensures !Consistent(Replaced(AppliedState(BLANK, w), pool, 0).value)
  {
    var e := Pays(1, []);
    PreparedWith(e);
    PoolWith(e);
    PaysRows(1, []);
    w := WriteWith(e);
    pool := Pool(TxRows([e.info]), TxCreates(e, Ones()), TxSpends(e));
    LandsFirst(pool, w, PaidOut(1));
  }

  // ----- A transaction that makes more than it takes

  lemma GapOfMint(w: Write)
    requires w.block == RowsWith(Pays(1, [])) && w.marks == map[]
    ensures Gap(map[], w.block, w.marks, Filled(1)) == -1
  {
    var b := w.block;
    PaysRows(1, []);
    assert FirstCoins(b.creates[..0]) == map[];
    assert b.creates[0].outpoint == PaidOut(1);
    var made := Group(MadeValues(b), Makers(b), Filled(1));
    assert PaidOut(1) in MadeValues(b) && MadeValues(b)[PaidOut(1)] == 1;
    assert PaidOut(1) in Makers(b) && Makers(b)[PaidOut(1)] == Filled(1);
    assert made == map[PaidOut(1) := 1];
    SumInsert(map[], PaidOut(1), 1);
    assert Group(SpentValues(map[], b), Takers(w.marks), Filled(1)) == map[];
  }

  /** One input-less transaction with a positive output: the block's value does not add up. */
  lemma UncoveredMints() returns (w: Write)
    ensures var e := Pays(1, []);
      && Prepared(0, Filled(9), BlockWith(e), IndexWith(e), Ones()) == Some(w.block) && Allowed(EMPTY, w)
      && Imbalance(EMPTY, w, Filled(9), BlockWith(e), IndexWith(e), Ones()) != 0
  {
    var e := Pays(1, []);
    PreparedWith(e);
    PaysRows(1, []);
    w := WriteWith(e);
    assert w.block.spends == [] && Consumed(w.block.spends) == {};
    assert w.marks == map[];
    GapOfMint(w);
    assert w.block.txs[0].txid == Filled(1);
    assert Filled(1) in Txids(w.block.txs);
    EmptySound();
    BlockConservesValue(EMPTY, w, 0, Filled(9), BlockWith(e), IndexWith(e), Ones());
  }

  // ----- A block that takes an unconfirmed coin and leaves its maker behind

  function Parent(): Entry {
    Pays(1, [])
  }

  function Child(): Entry {
    Pays(2, [PaidOut(1)])
  }

  lemma FamilyRows()
    ensures AllCreates([Parent(), Child()], Ones()) == TxCreates(Parent(), Ones()) + TxCreates(Child(), Ones())
    ensures AllSpends([Parent(), Child()]) == [Spend(PaidOut(1), Filled(2), SPEND_REGULAR, 0)]
  {
    var both := [Parent(), Child()];
    assert both[..1] == [Parent()] && [Parent()][..0] == [];
    assert AllCreates([Parent()][..0], Ones()) == [] && AllSpends([Parent()][..0]) == [];
    assert TxSpends(Parent()) == [] && AllSpends([Parent()]) == [];
    assert TxSpends(Child()) == [Spend(PaidOut(1), Filled(2), SPEND_REGULAR, 0)];
  }

  lemma FamilySets()
    ensures Created(AllCreates([Parent(), Child()], Ones())) == {PaidOut(1), PaidOut(2)}
    ensures Consumed(AllSpends([Parent(), Child()])) == {PaidOut(1)}
  {
    FamilyRows();
    PaysRows(1, []);
    PaysRows(2, [PaidOut(1)]);
    CreatedConcat(TxCreates(Parent(), Ones()), TxCreates(Child(), Ones()));
    assert AllSpends([Parent(), Child()])[0].outpoint == PaidOut(1);
  }

  lemma FamilyListed()
    ensures PreparedPool([Parent(), Child()], Ones()).Some?
    ensures DistinctTxids(PreparedPool([Parent(), Child()], Ones()).value.txs)
  {
    var both := [Parent(), Child()];
    HashesDiffer(1, 2);
    assert EntriesDecodable(both, Ones());
    var txs := PreparedPool(both, Ones()).value.txs;
    assert txs[0].txid == Filled(1) && txs[1].txid == Filled(2);
  }

  lemma FamilyPool() returns (s: State)
    ensures PreparedPool([Parent(), Child()], Ones()).Some?
    ensures Replaced(BLANK, PreparedPool([Parent(), Child()], Ones()).value, 0) == Some(s)
    ensures s.c == EMPTY && s.m.outputs.Keys == {PaidOut(1), PaidOut(2)} && s.m.spends.Keys == {PaidOut(1)}
  {
    FamilyListed();
    FamilySets();
    SnapshotTables(BLANK, [Parent(), Child()], Ones(), 0);
    s := Replaced(BLANK, PreparedPool([Parent(), Child()], Ones()).value, 0).value;
  }

  lemma ListedAgain(s: State, w: Write, o: OutPoint)
    requires o in s.m.outputs && o !in s.c.outputs && o in s.m.spends
    requires o in Consumed(w.block.spends) && o !in Created(w.block.creates)
    ensures !AncestorClosed(s.m, w.block)
    ensures o !in View(s, Anyone) && o in View(AppliedState(s, w), Anyone)
  {
    assert !ClosedAt(s.m, w.block, o);
    var m := Cleared(s.m, w.block);
    assert o in m.outputs && o !in m.spends;
  }

  /** The child is mined and its parent is not: the spent coin is back on everyone's list. */
  lemma TakenUnminedIsListed() returns (s: State, w: Write)
    ensures PreparedPool([Parent(), Child()], Ones()).Some?
    ensures Replaced(BLANK, PreparedPool([Parent(), Child()], Ones()).value, 0) == Some(s)
    ensures Prepared(0, Filled(9), BlockWith(Child()), IndexWith(Child()), Ones()) == Some(w.block) && Allowed(s.c, w)
    ensures !AncestorClosed(s.m, w.block) && PaidOut(1) in Consumed(w.block.spends)
    ensures PaidOut(1) !in View(s, Anyone) && PaidOut(1) in View(AppliedState(s, w), Anyone)
  {
    HashesDiffer(1, 2);
    s := FamilyPool();
    PreparedWith(Child());
    PaysRows(2, [PaidOut(1)]);
    w := WriteWith(Child());
    assert w.block.spends[0].outpoint == PaidOut(1);
    assert Consumed(w.block.spends) == {PaidOut(1)};
    ListedAgain(s, w, PaidOut(1));
  }

  // ----- A block that makes a coin the snapshot already claims

  function DepositBlock(): NodeBlock {
    NodeBlock(Header(Filled(0), None, Filled(0)), [], false, [])
  }

  function DepositIndex(): BlockIndex {
    BlockIndex([], [Placed(Deposit().outpoint, NodeOutput([], ""))], [], [], [])
  }

  function DepositRows(): Block {
    Bare(0, Filled(9), None).(creates := [Deposit()])
  }

  lemma DepositPrepared()
    ensures Prepared(0, Filled(9), DepositBlock(), DepositIndex(), Ones()) == Some(DepositRows())
  {
    var nb, index := DepositBlock(), DepositIndex();
    assert Executed([], []) == [] && AllCreates([], Ones()) == [] && AllSpends([]) == [];
    assert Readable(nb, index, Ones());
    assert CoinbaseRows(nb, Ones()) == [] && PlacedRows([], Ones()) == [] && TxRows([]) == [];
    assert PlacedRows(index.deposits, Ones()) == [Deposit()];
    assert BundleRows([]) == [] && DeleteRows([], Filled(9)) == [];
    var b := Prepared(0, Filled(9), nb, index, Ones()).value;
    assert b.creates == [] + [] + [Deposit()] + [] == [Deposit()];
    assert b.spends == [] + [] + [] == [];
  }

  lemma Claims(e: Entry, o: OutPoint) returns (s: State)
    requires e.tx.inputs == [o] && o.kind != KIND_REGULAR
    ensures PreparedPool([e], Ones()).Some?
    ensures Replaced(BLANK, PreparedPool([e], Ones()).value, 0) == Some(s)
    ensures s.c == EMPTY && o in s.m.spends && o !in s.m.outputs
  {
    PoolWith(e);
    var pool := PreparedPool([e], Ones()).value;
    assert pool.spends[0].outpoint == o;
    s := Replaced(BLANK, pool, 0).value;
    assert s.m.outputs.Keys == Created(pool.creates) && s.m.spends.Keys == Consumed(pool.spends);
  }

  lemma Hides(s: State, w: Write, o: OutPoint)
    requires o in Created(w.block.creates) && o in s.m.spends && o !in s.m.outputs
    requires Consumed(w.block.spends) == {} && Picks(w.block.height, w.block.spends, w.marks)
    ensures !Unclaimed(s.m, w.block, {}, {})
    ensures var t := AppliedState(s, w); o in t.c.outputs && o !in View(t, Anyone)
  {
    var t := AppliedState(s, w);
    AppliedRowAt(s.c, w, o);
    assert !UnclaimedAt(s.m, w.block, {}, {}, o);
    assert o in t.m.spends && o !in t.m.outputs;
  }

  lemma DepositWrite() returns (w: Write)
    ensures w == WriteOf(DepositRows()) && Allowed(EMPTY, w)
    ensures Deposit().outpoint in Created(w.block.creates) && Consumed(w.block.spends) == {}
  {
    w := WriteOf(DepositRows());
    ChosenMarksPick(0, w.block.spends);
    assert w.block.creates[0].outpoint == Deposit().outpoint;
    assert Created(w.block.creates) == {Deposit().outpoint};
    NoCoinbase(WithCreates(EMPTY, w.block));
  }

  /** The mempool spends a deposit the index has not seen yet: the block that brings it shows it to nobody. */
  lemma ClaimedDepositIsHidden() returns (s: State, w: Write)
    ensures var e := Pays(1, [Deposit().outpoint]);
      && PreparedPool([e], Ones()).Some? && Replaced(BLANK, PreparedPool([e], Ones()).value, 0) == Some(s)
    ensures Prepared(0, Filled(9), DepositBlock(), DepositIndex(), Ones()) == Some(w.block) && Allowed(s.c, w)
    ensures !Unclaimed(s.m, w.block, {}, {})
    ensures var t := AppliedState(s, w); Deposit().outpoint in t.c.outputs && Deposit().outpoint !in View(t, Anyone)
  {
    s := Claims(Pays(1, [Deposit().outpoint]), Deposit().outpoint);
    DepositPrepared();
    w := DepositWrite();
    Hides(s, w, Deposit().outpoint);
  }

  // ----- A trade skipped at first and executed later

  function Trade(skipped: bool): Entry {
    Entry(TxInfo(Filled(1), 0, [], skipped), Transaction([Deposit().outpoint], []))
  }

  /** Block 0 brings the deposit, lists the trade and skips it. */
  function SkippedIndex(): BlockIndex {
    DepositIndex().(txs := [Trade(true).info])
  }

  function SkippedRows(): Block {
    DepositRows().(txs := TxRows([Trade(true).info]))
  }

  lemma SkippedPrepared()
    ensures Prepared(0, Filled(9), BlockWith(Trade(true)), SkippedIndex(), Ones()) == Some(SkippedRows())
  {
    var nb, index := BlockWith(Trade(true)), SkippedIndex();
    var txs, infos := nb.transactions, index.txs;
    assert txs[..0] == [] && infos[..0] == [];
    assert Executed(txs[..0], infos[..0]) == [];
    assert Executed(txs, infos) == [] && AllCreates([], Ones()) == [] && AllSpends([]) == [];
    assert Readable(nb, index, Ones());
    assert CoinbaseRows(nb, Ones()) == [] && PlacedRows([], Ones()) == [];
    assert PlacedRows(index.deposits, Ones()) == [Deposit()];
    assert BundleRows([]) == [] && DeleteRows([], Filled(9)) == [];
    var b := Prepared(0, Filled(9), nb, index, Ones()).value;
    assert b.creates == [] + [] + [Deposit()] + [] == [Deposit()];
    assert b.spends == [] + [] + [] == [];
  }

  lemma SkippedWrite() returns (w: Write)
    ensures w == WriteOf(SkippedRows()) && Allowed(EMPTY, w) && Filled(1) in Txids(w.block.txs)
  {
    w := WriteOf(SkippedRows());
    var b := w.block;
    ChosenMarksPick(0, b.spends);
    assert b.creates[0].outpoint == Deposit().outpoint && b.txs[0].txid == Filled(1);
    assert Created(b.creates) == {Deposit().outpoint};
    NoCoinbase(WithCreates(EMPTY, b));
  }

  /** The trade is on record with no fee, and the deposit is held unspent. */
  lemma SkippedLands() returns (w: Write, c: Confirmed)
    ensures w == WriteOf(SkippedRows()) && Allowed(EMPTY, w) && c == Applied(EMPTY, SkippedRows(), w.marks)
    ensures Sound(c) && NextHeight(c) == 1 && c.blocks.Keys == {0} && c.blocks[0].hash == Filled(9)
    ensures Filled(1) in c.txs && c.txs[Filled(1)].fee == 0
    ensures c.outputs.Keys == {Deposit().outpoint}
    ensures c.outputs[Deposit().outpoint].spent == None && c.outputs[Deposit().outpoint].coin.value == 1
  {
    w := SkippedWrite();
    EmptySound();
    AppliedSound(EMPTY, w.block, w.marks);
    c := Applied(EMPTY, w.block, w.marks);
    assert Consumed(w.block.spends) == {};
    DepositHeld(w, c);
    FeeRecorded(EMPTY, w, Filled(1));
    NoFee(c.outputs, Filled(1));
  }

  lemma DepositHeld(w: Write, c: Confirmed)
    requires w.block.creates == [Deposit()] && Consumed(w.block.spends) == {}
    requires Picks(w.block.height, w.block.spends, w.marks) && c == Applied(EMPTY, w.block, w.marks)
    ensures c.outputs.Keys == {Deposit().outpoint}
    ensures c.outputs[Deposit().outpoint].spent == None && c.outputs[Deposit().outpoint].coin.value == 1
  {
    var b, o := w.block, Deposit().outpoint;
    assert b.creates[0].outpoint == o && b.creates[..0] == [];
    assert Created(b.creates) == {o} && FirstCoins(b.creates)[o] == Deposit().coin;
    AppliedRows(EMPTY, w);
    forall p
      ensures p in c.outputs <==> p == o
    {
      assert AfterAt(EMPTY.outputs, b, w.marks, c.outputs, p);
    }
    assert AfterAt(EMPTY.outputs, b, w.marks, c.outputs, o);
  }

  lemma NoFee(rows: Outputs, x: Hash)
    requires forall o | o in rows :: rows[o].spent == None && o.kind != KIND_REGULAR
    ensures Fee(rows, x, 0) == 0
  {
    assert InputValues(rows, x, 0).Keys == {} && OutputValues(rows, x, 0).Keys == {};
    SumOfNothing(InputValues(rows, x, 0));
    SumOfNothing(OutputValues(rows, x, 0));
  }

  lemma SumOfNothing<K>(m: map<K, int>)
    requires m.Keys == {}
    ensures Sum(m) == 0
  {
    assert m == map[];
  }

  lemma OneTaken(rows: Outputs, m: Mempool, x: Hash, o: OutPoint)
    requires m.outputs.Keys == {} && m.spends.Keys == {o} && ClaimedBy(m.spends[o], x)
    requires o in rows && rows[o].coin.value == 1
    ensures PendingGap(rows, m, x) == 1
  {
    var taken := TakenConfirmed(rows, m, x);
    assert taken.Keys == {o} && taken[o] == 1;
    SumRemove(taken, o);
    SumOfNothing(taken - {o});
    SumOfNothing(TakenPending(m, x));
    SumOfNothing(MadePending(m, x));
  }

  lemma TradePool() returns (pool: Pool)
    ensures PreparedPool([Trade(false)], Ones()) == Some(pool) && DistinctTxids(pool.txs)
    ensures Filled(1) in Txids(pool.txs) && pool.creates == []
    ensures pool.spends == [Spend(Deposit().outpoint, Filled(1), SPEND_REGULAR, 0)]
  {
    var e := Trade(false);
    PoolWith(e);
    pool := PreparedPool([e], Ones()).value;
    assert pool.txs[0].txid == Filled(1);
    assert TxSpends(e)[0] == Spend(Deposit().outpoint, Filled(1), SPEND_REGULAR, 0);
  }

  lemma OneClaim(o: OutPoint, x: Hash)
    ensures var claims := FirstClaims([Spend(o, x, SPEND_REGULAR, 0)]);
      claims.Keys == {o} && ClaimedBy(claims[o], x)
  {
    var spends := [Spend(o, x, SPEND_REGULAR, 0)];
    assert spends[..0] == [] && FirstClaims(spends[..0]) == map[];
  }

  /** In the snapshot the trade takes the deposit and makes nothing: its fee is one. */
  lemma TradePending(c: Confirmed) returns (s: State)
    requires Deposit().outpoint in c.outputs && c.outputs[Deposit().outpoint].coin.value == 1
    ensures PreparedPool([Trade(false)], Ones()).Some?
    ensures Replaced(State(c, BLANK.m), PreparedPool([Trade(false)], Ones()).value, 0) == Some(s)
    ensures s.c == c && Filled(1) in s.m.txs && s.m.txs[Filled(1)].fee == 1
  {
    var pool := TradePool();
    var x, o := Filled(1), Deposit().outpoint;
    s := Replaced(State(c, BLANK.m), pool, 0).value;
    Snapshots.SnapshotFee(State(c, BLANK.m), pool, 0, x);
    OneClaim(o, x);
    assert s.m.spends == FirstClaims(pool.spends) && s.m.outputs == FirstCoins(pool.creates);
    OneTaken(c.outputs, s.m, x, o);
  }

  /** Block 1 executes the trade. */
  function ExecutedRows(): Block {
    RowsWith(Trade(false)).(height := 1, hash := Filled(8))
  }

  lemma ExecutedPrepared()
    ensures Prepared(1, Filled(8), BlockWith(Trade(false)), IndexWith(Trade(false)), Ones()) == Some(ExecutedRows())
  {
    PreparedWith(Trade(false));
    var nb, index := BlockWith(Trade(false)), IndexWith(Trade(false));
    assert DeleteRows([], Filled(8)) == [] && DeleteRows([], Filled(9)) == [];
    assert Prepared(1, Filled(8), nb, index, Ones()).Some?;
  }

  lemma ExecutedLands(c: Confirmed) returns (w: Write)
    requires Sound(c) && NextHeight(c) == 1 && c.blocks.Keys == {0} && c.blocks[0].hash == Filled(9)
    requires c.outputs.Keys == {Deposit().outpoint}
    ensures w == WriteOf(ExecutedRows()) && Allowed(c, w)
  {
    w := WriteOf(ExecutedRows());
    ChosenMarksPick(1, w.block.spends);
    HashesDiffer(8, 9);
    assert w.block.creates == [];
    NoCoinbase(WithCreates(c, w.block));
  }

  /** A trade skipped in block 0 shows a fee of one in the snapshot, and keeps none when block 1 executes it. */
  lemma SkippedTradeKeepsFee() returns (first: Write, s: State, w: Write)
    ensures Prepared(0, Filled(9), BlockWith(Trade(true)), SkippedIndex(), Ones()) == Some(first.block)
    ensures Allowed(EMPTY, first) && PreparedPool([Trade(false)], Ones()).Some?
    ensures var c := Applied(EMPTY, first.block, first.marks);
      && s.c == c && Replaced(State(c, BLANK.m), PreparedPool([Trade(false)], Ones()).value, 0) == Some(s)
    ensures Prepared(1, Filled(8), BlockWith(Trade(false)), IndexWith(Trade(false)), Ones()) == Some(w.block)
    ensures Allowed(s.c, w)
    ensures var next := Applied(s.c, w.block, w.marks);
      && Filled(1) in s.m.txs && s.m.txs[Filled(1)].fee == 1
      && Filled(1) in next.txs && next.txs[Filled(1)].fee == 0
  {
    var c;
    SkippedPrepared();
    first, c := SkippedLands();
    s := TradePending(c);
    ExecutedPrepared();
    w := ExecutedLands(c);
    ListedRowStays(c, w, Filled(1));
  }

  // ----- Pages that lose transactions

  function IdOf(i: nat): Hash
    requires i < 0x100
  {
    [i] + seq(31, j => 0)
  }

  /** `x` is one of the ids `from` to `to - 1`. */
  predicate IsId(x: Hash, from: nat, to: nat) {
    from <= x[0] < to && x == IdOf(x[0])
  }

  function Ids(from: nat, to: nat): Batch
    requires from <= to <= 0x100
  {
    seq(to - from, i requires 0 <= i < to - from => TxInfo(IdOf(from + i), 0, [], false))
  }

  lemma IdsIn(from: nat, to: nat, x: Hash)
    requires from <= to <= 0x100
    ensures x in RanIn(Ids(from, to)) <==> IsId(x, from, to)
    ensures x in ListedIn(Ids(from, to)) <==> IsId(x, from, to)
  {
    var ids := Ids(from, to);
    forall i | 0 <= i < |ids|
      ensures ids[i].txid == IdOf(from + i) && ids[i].txid[0] == from + i && !ids[i].skipped
    {
    }
    if IsId(x, from, to) {
      assert ids[x[0] - from].txid == x && ids[x[0] - from] in ids;
    }
  }

  /** Twenty-five references at height 3 and one more at `last`. */
  function Crowd(last: nat): (list: seq<Paging.Ref>)
    ensures |list| == 26
  {
    seq(26, i requires 0 <= i < 26 => Paging.Ref(IdOf(i), if i < 25 then 3 else last))
  }

  lemma InCrowd(last: nat, r: Paging.Ref)
    ensures r in Crowd(last) <==> IsId(r.txid, 0, 26) && r.height == if r.txid[0] < 25 then 3 else last
  {
    var list := Crowd(last);
    if IsId(r.txid, 0, 26) && r.height == if r.txid[0] < 25 then 3 else last {
      assert list[r.txid[0]] == r;
    }
  }

  ghost predicate IsCrowd(list: seq<Paging.Ref>, last: nat) {
    && |list| == 26 && Paging.Ordered(list)
    && (forall i | 0 <= i < 25 :: list[i].height == 3) && list[25].height == last
  }

  lemma CrowdIs(last: nat)
    requires last <= 3
    ensures IsCrowd(Crowd(last), last) && Crowd(last)[24].txid == IdOf(24)
  {
    var list := Crowd(last);
    forall i, j | 0 <= i < j < 26
      ensures Paging.Before(list[i], list[j])
    {
      assert list[i].txid[0] == i && list[j].txid[0] == j;
    }
  }

  lemma CrowdSkips(list: seq<Paging.Ref>, last: nat, bound: nat)
    requires IsCrowd(list, last) && 0 < last <= 3 && bound < last
    ensures Paging.Skip(list, bound) == 26
  {
    assert forall i | 0 <= i < 26 :: list[i].height > bound;
  }

  /** The cursor of the first page leads below the list, so the client reads that page and no more. */
  lemma ReadsOnePage(list: seq<Paging.Ref>, last: nat, txs: map<Hash, TxRow>)
    requires IsCrowd(list, last) && 0 < last <= 3 && Paging.Resolves(list, txs)
    requires (forall r | r in list :: r.txid in txs) && list[24] in list && txs[list[24].txid].height <= last
    ensures Paging.Fits(Paging.Reader(list, txs), txs)
    ensures Paging.Followed(Paging.Reader(list, txs), txs, 3) == list[..25]
  {
    var read, h, page := Paging.Reader(list, txs), txs[list[24].txid].height, list[..25];
    Paging.ReaderFits(list, txs);
    FirstPage(list, last, txs);
    Paging.FollowedTurn(read, txs, 3, page);
    if h > 0 {
      CrowdSkips(list, last, h - 1);
      assert read(h - 1) == [];
      Paging.FollowedTurn(read, txs, h - 1, []);
    }
    assert page + [] == page;
  }

  lemma FirstPage(list: seq<Paging.Ref>, last: nat, txs: map<Hash, TxRow>)
    requires IsCrowd(list, last) && last <= 3 && forall r | r in list :: r.txid in txs
    ensures Paging.Reader(list, txs)(3) == list[..25]
  {
    assert list[0].height == 3;
    assert Paging.Skip(list, 3) == 0 && Paging.Page(list, 3) == list[..25];
    Paging.PageOrdered(list, 3);
    Paging.ShownOrdered(list[..25], txs);
  }

  /** The batches ran the crowd, with the last one at height `last`. */
  ghost predicate RunsCrowd(batches: seq<Batch>, last: nat) {
    |batches| == 4 && forall x :: RunsAt(batches, last, x)
  }

  predicate RunsAt(batches: seq<Batch>, last: nat, x: Hash)
    requires |batches| == 4
  {
    RanAt(batches, 4, x) == if IsId(x, 0, 25) then Some(3) else if IsId(x, 25, 26) then Some(last) else None
  }

  lemma CrowdHistory(c: Confirmed, batches: seq<Batch>, last: nat)
    requires RunsCrowd(batches, last) && Holds(c, batches, 4) && last <= 3
    ensures Paging.IsHistory(Crowd(last), Paging.Touched(c.outputs, Anyone))
  {
    CrowdIs(last);
    forall r
      ensures r in Crowd(last) <==> r in Paging.Touched(c.outputs, Anyone)
    {
      InCrowd(last, r);
      assert RunsAt(batches, last, r.txid);
      HeldTouched(c, batches, 4, r);
    }
  }

  /** Every id was listed at or below the height it ran at, and the last of the first page at `h`. */
  ghost predicate ListsCrowd(batches: seq<Batch>, last: nat, h: nat) {
    && |batches| == 4 && (forall x :: ListsAt(batches, last, x))
    && ListedAt(batches, 4, IdOf(24)) == Some(h)
  }

  predicate ListsAt(batches: seq<Batch>, last: nat, x: Hash)
    requires |batches| == 4
  {
    IsId(x, 0, 26) ==> match ListedAt(batches, 4, x)
                       case None => false
                       case Some(k) => k <= if x[0] < 25 then 3 else last
  }

  lemma CrowdResolves(c: Confirmed, batches: seq<Batch>, last: nat, h: nat)
    requires ListsCrowd(batches, last, h) && Holds(c, batches, 4) && last <= 3
    ensures Paging.Resolves(Crowd(last), c.txs) && forall r | r in Crowd(last) :: r.txid in c.txs
    ensures IdOf(24) in c.txs && c.txs[IdOf(24)].height == h
  {
    forall r | r in Crowd(last)
      ensures r.txid in c.txs && c.txs[r.txid].height <= r.height
    {
      InCrowd(last, r);
      assert ListsAt(batches, last, r.txid);
      HeldTx(c, batches, 4, r.txid);
    }
    HeldTx(c, batches, 4, IdOf(24));
  }

  /** Then the client reads the first page and never sees the last reference. */
  lemma CrowdLoses(c: Confirmed, batches: seq<Batch>, last: nat, h: nat)
    requires RunsCrowd(batches, last) && ListsCrowd(batches, last, h) && Holds(c, batches, 4)
    requires 0 < last <= 3 && h <= last
    ensures var list := Crowd(last);
      && Paging.IsHistory(list, Paging.Touched(c.outputs, Anyone))
      && Paging.Fits(Paging.Reader(list, c.txs), c.txs)
      && Paging.Followed(Paging.Reader(list, c.txs), c.txs, 3) == list[..25]
      && IdOf(24) in c.txs && c.txs[IdOf(24)].height == h
  {
    CrowdHistory(c, batches, last);
    CrowdResolves(c, batches, last, h);
    CrowdIs(last);
    var list := Crowd(last);
    assert list[24] in list;
    ReadsOnePage(list, last, c.txs);
  }

  lemma CrowdCuts(last: nat)
    requires 0 < last <= 3
    ensures Paging.CleanCuts(Crowd(last), 0) <==> last < 3
  {
    var list := Crowd(last);
    assert list[24].height == 3 && list[25].height == last;
    Paging.CutsFrom(list, 0, 25);
  }

  /** Three empty blocks, then twenty-six transactions in one. */
  function CutBatches(): seq<Batch> {
    [[], [], [], Ids(0, 26)]
  }

  lemma CutAt(x: Hash)
    ensures RunsAt(CutBatches(), 3, x) && ListsAt(CutBatches(), 3, x)
    ensures ListedAt(CutBatches(), 4, x) == if IsId(x, 0, 26) then Some(3) else None
  {
    RanInFour(CutBatches(), x);
    ListedInFour(CutBatches(), x);
    IdsIn(0, 26, x);
  }

  lemma {:induction false} NothingListed(batches: seq<Batch>, n: nat, x: Hash)
    requires n <= |batches| && forall k | 0 <= k < n :: batches[k] == []
    ensures ListedAt(batches, n, x) == None
    decreases n
  {
    if n == 0 {
    } else {
      NothingListed(batches, n - 1, x);
      assert batches[n - 1] == [];
    }
  }

  lemma CutIs()
    ensures RunsCrowd(CutBatches(), 3) && ListsCrowd(CutBatches(), 3, 3)
    ensures forall k :: NewAt(CutBatches(), k)
  {
    var batches := CutBatches();
    forall x: Hash
      ensures RunsAt(batches, 3, x) && ListsAt(batches, 3, x)
    {
      CutAt(x);
    }
    CutAt(IdOf(24));
    forall k: nat
      ensures NewAt(batches, k)
    {
      if k == 3 {
        forall t: TxInfo | t in batches[3]
          ensures ListedAt(batches, 3, t.txid) == None
        {
          NothingListed(batches, 3, t.txid);
        }
      }
    }
  }

  /** The boundary falls inside the block: the client never sees its last transaction. */
  lemma PageCutLoses() returns (states: seq<State>, events: seq<Runs.Event>)
    ensures Histories.NodeRun(states, events, Ones(), iset{}, true) && |events| == 4
    ensures var c, list := states[4].c, Crowd(3);
      && Paging.IsHistory(list, Paging.Touched(c.outputs, Anyone))
      && Paging.Fits(Paging.Reader(list, c.txs), c.txs)
      && Paging.Followed(Paging.Reader(list, c.txs), c.txs, 3) == list[..25] && !Paging.CleanCuts(list, 0)
  {
    var batches := CutBatches();
    CutIs();
    states, events := BatchRun(batches, 4, true);
    CrowdLoses(states[4].c, batches, 3, 3);
    CrowdCuts(3);
  }

  /** An empty block, one that lists a trade and skips it, one with a transaction, one with the trade and 24 others. */
  function JumpBatches(): seq<Batch> {
    [[], [TxInfo(IdOf(24), 0, [], true)], Ids(25, 26), Ids(0, 25)]
  }

  lemma SkippedIn(x: Hash)
    ensures var batch := [TxInfo(IdOf(24), 0, [], true)];
      x !in RanIn(batch) && (x in ListedIn(batch) <==> x == IdOf(24))
  {
    var batch := [TxInfo(IdOf(24), 0, [], true)];
    assert batch[0] in batch;
  }

  lemma JumpAt(x: Hash)
    ensures RunsAt(JumpBatches(), 2, x) && ListsAt(JumpBatches(), 2, x)
    ensures x == IdOf(24) ==> ListedAt(JumpBatches(), 4, x) == Some(1)
  {
    RanInFour(JumpBatches(), x);
    ListedInFour(JumpBatches(), x);
    SkippedIn(x);
    IdsIn(25, 26, x);
    IdsIn(0, 25, x);
  }

  /**
   The trade is the last of a full page: the cursor jumps below height 1 and the client never sees the transaction at
   height 2, though the page boundary is clean.
   */
  lemma RelistedJumps() returns (states: seq<State>, events: seq<Runs.Event>)
    ensures Histories.NodeRun(states, events, Ones(), iset{}, false) && |events| == 4
    ensures var c, list := states[4].c, Crowd(2);
      && Paging.IsHistory(list, Paging.Touched(c.outputs, Anyone))
      && Paging.Fits(Paging.Reader(list, c.txs), c.txs)
      && IdOf(24) in c.txs && c.txs[IdOf(24)].height == 1
      && Paging.Followed(Paging.Reader(list, c.txs), c.txs, 3) == list[..25] && Paging.CleanCuts(list, 0)
  {
    var batches := JumpBatches();
    forall x: Hash
      ensures RunsAt(batches, 2, x) && ListsAt(batches, 2, x)
    {
      JumpAt(x);
    }
    JumpAt(IdOf(24));
    states, events := BatchRun(batches, 4, false);
    CrowdLoses(states[4].c, batches, 2, 1);
    CrowdCuts(2);
  }

  // ----- Market funds that are not in packed form

  /** Their JSON text does not read back as the same outpoint. */
  lemma UnpackedFundsDrift()
    ensures var o := OutPoint(KIND_MARKET_FUNDS, Filled(1), 0);
      Marshal(o).Some? && Unmarshal(Marshal(o).value) != Some(o)
  {
    var o := OutPoint(KIND_MARKET_FUNDS, Filled(1), 0);
    WireRoundTrip(o);
    assert o.source[10] == 1 && o.source[31] == 1;
  }

  // ----- Two coinbases under one merkle root

  /** A block with nothing in it but one coinbase output. */
  function RootBlock(owner: byte, prev: Option<Hash>): NodeBlock {
    NodeBlock(Header(Filled(0), prev, Filled(0)), [NodeOutput([owner], "")], false, [])
  }

  function RootCoin(owner: byte): Output {
    Output(OutPoint(KIND_COINBASE, Filled(0), 0), Coin([owner], 1, "", ""), true)
  }

  function RootLanded(height: nat, hash: Hash, owner: byte, prev: Option<Hash>): Mining.Landed {
    Mining.Landed(
      Write(Bare(height, hash, prev).(creates := [RootCoin(owner)]), map[]),
      height, hash, RootBlock(owner, prev), BlockIndex([], [], [], [], []))
  }

  lemma RootPrepared(height: nat, hash: Hash, owner: byte, prev: Option<Hash>)
    ensures var l := RootLanded(height, hash, owner, prev);
      Prepared(height, hash, l.block, l.index, Ones()) == Some(l.write.block)
  {
    var l := RootLanded(height, hash, owner, prev);
    assert Readable(l.block, l.index, Ones());
    assert CoinbaseRows(l.block, Ones()) == [RootCoin(owner)];
    assert PlacedRows([], Ones()) == [] && BundleRows([]) == [] && DeleteRows([], hash) == [];
    assert Executed([], []) == [] && AllCreates([], Ones()) == [] && AllSpends([]) == [] && TxRows([]) == [];
    var b := Prepared(height, hash, l.block, l.index, Ones()).value;
    assert b.creates == [RootCoin(owner)] + [] + [] + [] == [RootCoin(owner)];
    assert b.spends == [] + [] + [] == [];
  }

  lemma RootOnly(c: Confirmed, b: Block, o: OutPoint)
    requires |b.creates| == 1 && b.creates[0].outpoint == o && c.outputs.Keys <= {o}
    ensures WithCreates(c, b).Keys == {o} && UniqueCoinbase(WithCreates(c, b))
  {
    assert Created(b.creates) == {o};
  }

  lemma RootLands(c: Confirmed, height: nat, hash: Hash, owner: byte, prev: Option<Hash>) returns (d: Confirmed)
    requires height == NextHeight(c) && height !in c.blocks && !HashTaken(c.blocks, hash)
    requires c.outputs.Keys <= {RootCoin(owner).outpoint}
    ensures Coinbases.ServedStep(c, RootLanded(height, hash, owner, prev), Ones(), d)
    ensures d.outputs.Keys == {RootCoin(owner).outpoint}
    ensures d.outputs[RootCoin(owner).outpoint].coin ==
      if RootCoin(owner).outpoint in c.outputs then c.outputs[RootCoin(owner).outpoint].coin else RootCoin(owner).coin
  {
    var l, o := RootLanded(height, hash, owner, prev), RootCoin(owner).outpoint;
    RootPrepared(height, hash, owner, prev);
    FirstCoinIs(l.write.block.creates, 0);
    AppliedRowAt(c, l.write, o);
    RootOnly(c, l.write.block, o);
    d := Applied(c, l.write.block, l.write.marks);
  }

  /** Two blocks with equal bodies pay one owner each: both are accepted, and the second owner is never paid. */
  lemma SharedRootLosesCoinbase() returns (states: seq<Confirmed>, landed: seq<Mining.Landed>)
    ensures Coinbases.ServedRun(states, landed, Ones()) && |landed| == 2
    ensures landed[0].block.coinbase == [NodeOutput([0], "")] && landed[1].block.coinbase == [NodeOutput([1], "")]
    ensures landed[1].block.header.prevSideHash == Some(landed[0].hash)
    ensures forall o | o in states[2].outputs :: states[2].outputs[o].coin.address != [1]
  {
    HashesDiffer(0, 1);
    var first, second := RootLanded(0, Filled(0), 0, None), RootLanded(1, Filled(1), 1, Some(Filled(0)));
    var c := RootLands(EMPTY, 0, Filled(0), 0, None);
    var d := RootLands(c, 1, Filled(1), 1, Some(Filled(0)));
    states, landed := [EMPTY, c, d], [first, second];
    forall k: nat
      ensures Coinbases.ServedAt(states, landed, Ones(), k)
    {
      assert k < 2 ==> k == 0 || k == 1;
    }
  }
}
