/** Runs of blocks of plain transactions, each without inputs and with one output: a way to reach crowded tables. */
module Batches {
  import opened Rows
  import opened Ledger
  import opened Undo
  import opened Prepare
  import opened Coins
  import opened Overlay
  import opened Samples
  import Sync
  import Runs
  import opened Histories
  import Paging

  /** What the node lists in one block. A skipped one moves nothing. */
  type Batch = seq<TxInfo>

  function Plain(): Transaction {
    Transaction([], [NodeOutput([], "")])
  }

  function BatchBlock(batch: Batch): (b: NodeBlock)
    ensures |b.transactions| == |batch|
  {
    NodeBlock(Header(Filled(0), None, Filled(0)), [], false, seq(|batch|, i => Plain()))
  }

  function BatchIndex(batch: Batch): BlockIndex {
    BlockIndex(batch, [], [], [], [])
  }

  function ListedIn(batch: Batch): set<Hash> {
    set t | t in batch :: t.txid
  }

  function RanIn(batch: Batch): set<Hash> {
    set t | t in batch && !t.skipped :: t.txid
  }

  // ----- The rows of one batch

  ghost predicate MadeByBatch(b: Block, batch: Batch, o: OutPoint) {
    && (o in Created(b.creates) <==> o.kind == KIND_REGULAR && o.vout == 0 && o.source in RanIn(batch))
    && o !in Consumed(b.spends)
  }

  ghost predicate IsBatch(b: Block, n: nat, hash: Hash, batch: Batch) {
    b.height == n && b.hash == hash && Txids(b.txs) == ListedIn(batch) && forall o :: MadeByBatch(b, batch, o)
  }

  lemma BatchPrepared(n: nat, hash: Hash, batch: Batch) returns (b: Block)
    ensures Prepared(n, hash, BatchBlock(batch), BatchIndex(batch), Ones()) == Some(b)
    ensures IsBatch(b, n, hash, batch)
  {
    var nb, index := BatchBlock(batch), BatchIndex(batch);
    assert Readable(nb, index, Ones());
    b := Prepared(n, hash, nb, index, Ones()).value;
    forall o
      ensures MadeByBatch(b, batch, o)
    {
      BatchCreated(n, hash, batch, b, o);
      if o in Consumed(b.spends) {
        var i :| 0 <= i < |b.spends| && b.spends[i].outpoint == o;
        SpendsExplained(n, hash, nb, index, Ones(), b, b.spends[i]);
      }
    }
    BatchListed(batch, b.txs);
  }

  lemma BatchListed(batch: Batch, txs: seq<Tx>)
    requires txs == TxRows(batch)
    ensures Txids(txs) == ListedIn(batch)
  {
    forall x
      ensures x in Txids(txs) <==> x in ListedIn(batch)
    {
      if x in ListedIn(batch) {
        var i :| 0 <= i < |batch| && batch[i].txid == x;
        assert txs[i].txid == x;
      }
    }
  }

  lemma BatchCreated(n: nat, hash: Hash, batch: Batch, b: Block, o: OutPoint)
    requires Prepared(n, hash, BatchBlock(batch), BatchIndex(batch), Ones()) == Some(b)
    ensures o in Created(b.creates) <==> o.kind == KIND_REGULAR && o.vout == 0 && o.source in RanIn(batch)
  {
    var nb, index := BatchBlock(batch), BatchIndex(batch);
    if o in Created(b.creates) {
      var i :| 0 <= i < |b.creates| && b.creates[i].outpoint == o;
      CreatesExplained(n, hash, nb, index, Ones(), b, b.creates[i]);
      var k: nat, j: nat :| TransactionRow(nb, index, Ones(), k, j, b.creates[i]);
      assert batch[k] in batch;
    }
    if o.kind == KIND_REGULAR && o.vout == 0 && o.source in RanIn(batch) {
      var k :| 0 <= k < |batch| && batch[k].txid == o.source && !batch[k].skipped;
      var row := Output(o, CoinOf(Plain().outputs[0], Ones()), true);
      assert TransactionRow(nb, index, Ones(), k, 0, row);
      CreatesExplained(n, hash, nb, index, Ones(), b, row);
    }
  }

  // ----- The tables after some batches

  /** The first of the first `n` batches that ran, or listed, transaction `x`. */
  function RanAt(batches: seq<Batch>, n: nat, x: Hash): Option<nat>
    requires n <= |batches|
  {
    if n == 0 then None
    else if RanAt(batches, n - 1, x).Some? then RanAt(batches, n - 1, x)
    else if x in RanIn(batches[n - 1]) then Some(n - 1) else None
  }

  function ListedAt(batches: seq<Batch>, n: nat, x: Hash): Option<nat>
    requires n <= |batches|
  {
    if n == 0 then None
    else if ListedAt(batches, n - 1, x).Some? then ListedAt(batches, n - 1, x)
    else if x in ListedIn(batches[n - 1]) then Some(n - 1) else None
  }

  predicate OutputIs(c: Confirmed, o: OutPoint, ran: Option<nat>) {
    && (o in c.outputs <==> o.kind == KIND_REGULAR && o.vout == 0 && ran.Some?)
    && (o in c.outputs ==> Some(c.outputs[o].height) == ran && c.outputs[o].spent == None)
  }

  predicate TxIs(c: Confirmed, x: Hash, listed: Option<nat>) {
    (x in c.txs <==> listed.Some?) && (x in c.txs ==> Some(c.txs[x].height) == listed)
  }

  ghost predicate HoldsAt(c: Confirmed, batches: seq<Batch>, n: nat, o: OutPoint)
    requires n <= |batches|
  {
    OutputIs(c, o, RanAt(batches, n, o.source)) && TxIs(c, o.source, ListedAt(batches, n, o.source))
  }

  /** The tables hold exactly what ran and what was listed, at those heights, in blocks with hashes 0, 1, 2, ... */
  ghost predicate Holds(c: Confirmed, batches: seq<Batch>, n: nat) {
    && n <= |batches| && Sound(c) && NextHeight(c) == n
    && (forall o :: HoldsAt(c, batches, n, o))
    && (forall k | k in c.blocks :: k < 0x100 && c.blocks[k].hash == Filled(k))
  }

  lemma BatchAllowed(c: Confirmed, batches: seq<Batch>, n: nat, b: Block)
    requires Holds(c, batches, n) && n < |batches| && n < 0x100 && IsBatch(b, n, Filled(n), batches[n])
    ensures Allowed(c, Sync.WriteOf(b))
  {
    ChosenMarksPick(n, b.spends);
    forall k | k in c.blocks
      ensures c.blocks[k].hash != b.hash
    {
      HashesDiffer(k, n);
    }
    forall o | o in WithCreates(c, b)
      ensures o.kind != KIND_COINBASE
    {
      assert HoldsAt(c, batches, n, o) && MadeByBatch(b, batches[n], o);
    }
    NoCoinbase(WithCreates(c, b));
  }

  lemma BatchOutput(
    c: Confirmed, ran: Option<nat>, n: nat, batch: Batch, w: Write, d: Confirmed, o: OutPoint, ran': Option<nat>)
    requires OutputIs(c, o, ran) && MadeByBatch(w.block, batch, o) && w.block.height == n
    requires AfterAt(c.outputs, w.block, w.marks, d.outputs, o)
    requires ran' == if ran.Some? then ran else if o.source in RanIn(batch) then Some(n) else None
    ensures OutputIs(d, o, ran')
  {
  }

  lemma BatchTx(
    c: Confirmed, listed: Option<nat>, n: nat, batch: Batch, w: Write, d: Confirmed, x: Hash, listed': Option<nat>)
    requires TxIs(c, x, listed) && w.block.height == n && Txids(w.block.txs) == ListedIn(batch)
    requires d == Applied(c, w.block, w.marks)
    requires listed' == if listed.Some? then listed else if x in ListedIn(batch) then Some(n) else None
    ensures TxIs(d, x, listed')
  {
    assert x in d.txs <==> x in FirstTxs(n, w.block.txs) + c.txs;
  }

  lemma BatchLands(c: Confirmed, batches: seq<Batch>, n: nat, w: Write, d: Confirmed)
    requires Holds(c, batches, n) && n < |batches| && n < 0x100 && IsBatch(w.block, n, Filled(n), batches[n])
    requires Allowed(c, w) && d == Applied(c, w.block, w.marks)
    ensures Holds(d, batches, n + 1)
  {
    AppliedSound(c, w.block, w.marks);
    AppliedRows(c, w);
    var m := n + 1;
    forall o
      ensures HoldsAt(d, batches, m, o)
    {
      var x := o.source;
      assert HoldsAt(c, batches, n, o) && MadeByBatch(w.block, batches[n], o);
      assert AfterAt(c.outputs, w.block, w.marks, d.outputs, o);
      BatchOutput(c, RanAt(batches, n, x), n, batches[n], w, d, o, RanAt(batches, m, x));
      BatchTx(c, ListedAt(batches, n, x), n, batches[n], w, d, x, ListedAt(batches, m, x));
    }
  }

  lemma HeldTx(c: Confirmed, batches: seq<Batch>, n: nat, x: Hash)
    requires Holds(c, batches, n)
    ensures TxIs(c, x, ListedAt(batches, n, x))
  {
    assert HoldsAt(c, batches, n, OutPoint(KIND_REGULAR, x, 0));
  }

  /** Batch `n` lists no txid that an earlier one listed. */
  ghost predicate NewAt(batches: seq<Batch>, n: nat) {
    n < |batches| ==> forall t | t in batches[n] :: ListedAt(batches, n, t.txid) == None
  }

  lemma BatchApart(c: Confirmed, batches: seq<Batch>, n: nat, exact: bool)
    requires Holds(c, batches, n) && n < |batches| && n < 0x100 && (exact ==> NewAt(batches, n))
    ensures IdsApart(c, Filled(n), BatchIndex(batches[n]), iset{}, exact)
  {
    forall t | t in batches[n] && exact
      ensures t.txid !in c.txs
    {
      HeldTx(c, batches, n, t.txid);
    }
  }

  // ----- The run

  lemma StepCopied(
    states: seq<State>, events: seq<Runs.Event>, more: seq<State>, all: seq<Runs.Event>, k: nat)
    requires k < |events| && k + 1 < |states| && k < |all| && k + 1 < |more|
    requires more[k] == states[k] && more[k + 1] == states[k + 1] && all[k] == events[k]
    requires Runs.StepAt(states, events, k)
    ensures Runs.StepAt(more, all, k)
  {
  }

  /** The run takes this event to this state. */
  ghost predicate TakenTo(s: State, e: Runs.Event, t: State) {
    Runs.StepAt([s, t], [e], 0)
  }

  lemma IsRunGrows(states: seq<State>, events: seq<Runs.Event>, e: Runs.Event, t: State)
    requires Runs.IsRun(states, events) && TakenTo(states[|events|], e, t)
    ensures Runs.IsRun(states + [t], events + [e])
  {
    var n, more, all := |events|, states + [t], events + [e];
    forall k: nat
      ensures Runs.StepAt(more, all, k)
    {
      if k < n {
        assert Runs.StepAt(states, events, k);
        StepCopied(states, events, more, all, k);
      } else if k == n {
        LastStep([states[n], t], [e], more, all, n);
      }
    }
  }

  lemma LastStep(pair: seq<State>, one: seq<Runs.Event>, more: seq<State>, all: seq<Runs.Event>, n: nat)
    requires |pair| == 2 && |one| == 1 && Runs.StepAt(pair, one, 0)
    requires |more| == n + 2 && |all| == n + 1 && more[n] == pair[0] && more[n + 1] == pair[1] && all[n] == one[0]
    ensures Runs.StepAt(more, all, n)
  {
  }

  lemma InStepGrows(states: seq<State>, events: seq<Runs.Event>, e: Runs.Event, t: State)
    requires |states| == |events| + 1 && Runs.InStep(states[|events|], e)
    requires forall k | 0 <= k < |events| :: Runs.InStep(states[k], events[k])
    ensures forall k | 0 <= k < |events| + 1 :: Runs.InStep((states + [t])[k], (events + [e])[k])
  {
  }

  lemma FromNodeGrows(
    states: seq<State>, events: seq<Runs.Event>, e: Runs.Event, t: State, codec: Codec, others: iset<Hash>, exact: bool)
    requires |states| == |events| + 1 && FromNode(states[|events|], e, codec, others, exact)
    requires forall k | 0 <= k < |events| :: FromNode(states[k], events[k], codec, others, exact)
    ensures forall k | 0 <= k < |events| + 1 :: FromNode((states + [t])[k], (events + [e])[k], codec, others, exact)
  {
  }

  lemma RunGrows(
    states: seq<State>, events: seq<Runs.Event>, e: Runs.Event, codec: Codec, others: iset<Hash>, exact: bool, t: State)
    requires NodeRun(states, events, codec, others, exact) && TakenTo(states[|events|], e, t)
    requires Runs.InStep(states[|events|], e) && FromNode(states[|events|], e, codec, others, exact)
    ensures NodeRun(states + [t], events + [e], codec, others, exact)
  {
    IsRunGrows(states, events, e, t);
    InStepGrows(states, events, e, t);
    FromNodeGrows(states, events, e, t, codec, others, exact);
  }

  /** One more batch. */
  lemma BatchStep(s: State, batches: seq<Batch>, n: nat, exact: bool) returns (e: Runs.Event, t: State)
    requires Holds(s.c, batches, n) && n < |batches| && n < 0x100 && (exact ==> NewAt(batches, n))
    ensures Runs.InStep(s, e) && TakenTo(s, e, t) && FromNode(s, e, Ones(), iset{}, exact)
    ensures Holds(t.c, batches, n + 1)
  {
    var b := BatchPrepared(n, Filled(n), batches[n]);
    var w := Sync.WriteOf(b);
    e, t := Runs.ApplyBlock(w), AppliedState(s, w);
    BatchAllowed(s.c, batches, n, b);
    BatchApart(s.c, batches, n, exact);
    BatchLands(s.c, batches, n, w, t.c);
  }

  /** Every list of batches is reached by a run over blocks the node serves; `exact` when no txid is listed twice. */
  lemma {:induction false} BatchRun(batches: seq<Batch>, n: nat, exact: bool)
    returns (states: seq<State>, events: seq<Runs.Event>)
    requires n <= |batches| <= 0x100 && (exact ==> forall k :: NewAt(batches, k))
    ensures NodeRun(states, events, Ones(), iset{}, exact) && |events| == n
    ensures Holds(states[n].c, batches, n)
    decreases n
  {
    if n == 0 {
      EmptySound();
      states, events := [BLANK], [];
    } else {
      var m := n - 1;
      var before, done := BatchRun(batches, m, exact);
      assert exact ==> NewAt(batches, m);
      var e, t := BatchStep(before[m], batches, m, exact);
      RunGrows(before, done, e, Ones(), iset{}, exact, t);
      states, events := before + [t], done + [e];
      assert states[n] == t;
    }
  }

  /** The references of such tables are what ran, at the height it ran. */
  lemma HeldTouched(c: Confirmed, batches: seq<Batch>, n: nat, r: Paging.Ref)
    requires Holds(c, batches, n)
    ensures r in Paging.Touched(c.outputs, Anyone) <==> RanAt(batches, n, r.txid) == Some(r.height)
  {
    var o := OutPoint(KIND_REGULAR, r.txid, 0);
    assert HoldsAt(c, batches, n, o);
    if r in Paging.Touched(c.outputs, Anyone) {
      var p :| p in c.outputs && Anyone(c.outputs[p].coin.address)
        && ((p.kind == KIND_REGULAR && r == Paging.Ref(p.source, c.outputs[p].height))
            || (c.outputs[p].spent.Some?
                && r == Paging.Ref(c.outputs[p].spent.value.source, c.outputs[p].spent.value.height)));
      assert HoldsAt(c, batches, n, p);
    }
    if RanAt(batches, n, r.txid) == Some(r.height) {
      assert r == Paging.Ref(o.source, c.outputs[o].height);
    }
  }

  // ----- Four batches

  lemma RanInFour(batches: seq<Batch>, x: Hash)
    requires |batches| == 4
    ensures RanAt(batches, 4, x)
         == if x in RanIn(batches[0]) then Some(0) else if x in RanIn(batches[1]) then Some(1)
            else if x in RanIn(batches[2]) then Some(2) else if x in RanIn(batches[3]) then Some(3) else None
  {
    assert RanAt(batches, 1, x) == if x in RanIn(batches[0]) then Some(0) else None;
    assert RanAt(batches, 2, x).Some? <==> x in RanIn(batches[0]) || x in RanIn(batches[1]);
  }

  lemma ListedInFour(batches: seq<Batch>, x: Hash)
    requires |batches| == 4
    ensures ListedAt(batches, 4, x)
         == if x in ListedIn(batches[0]) then Some(0) else if x in ListedIn(batches[1]) then Some(1)
            else if x in ListedIn(batches[2]) then Some(2) else if x in ListedIn(batches[3]) then Some(3) else None
  {
    assert ListedAt(batches, 1, x) == if x in ListedIn(batches[0]) then Some(0) else None;
    assert ListedAt(batches, 2, x).Some? <==> x in ListedIn(batches[0]) || x in ListedIn(batches[1]);
  }
}
