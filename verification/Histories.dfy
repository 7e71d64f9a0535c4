/** Where histories come from: the rows behind their references, over every run of the node's blocks. */
module Histories {
  import opened Rows
  import opened Ledger
  import opened Prepare
  import opened Overlay
  import opened Paging
  import Runs

  // ----- When references resolve

  /**
   An id that is either one of `others`, the ids of bundles, of blocks and of market coins, or that of a transaction
   indexed no later than `height`; `exact` asks for exactly then.
   */
  ghost predicate Named(c: Confirmed, others: iset<Hash>, exact: bool, id: Hash, height: nat) {
    id in others || (id in c.txs && c.txs[id].height <= height && (exact ==> c.txs[id].height == height))
  }

  ghost predicate SourcedAt(c: Confirmed, others: iset<Hash>, exact: bool, o: OutPoint) {
    o in c.outputs ==>
      && (o.kind == KIND_REGULAR ==> Named(c, others, exact, o.source, c.outputs[o].height))
      && (c.outputs[o].spent.Some? ==>
            Named(c, others, exact, c.outputs[o].spent.value.source, c.outputs[o].spent.value.height))
  }

  /** Every regular output and every spend is by an indexed transaction or by one of the other ids. */
  ghost predicate Sourced(c: Confirmed, others: iset<Hash>, exact: bool) {
    (forall x | x in c.txs :: x !in others) && forall o :: SourcedAt(c, others, exact, o)
  }

  /** What a block must carry to keep that; `exact` also asks that the txids it lists are new. */
  ghost predicate OwnRows(c: Confirmed, b: Block, others: iset<Hash>, exact: bool) {
    && (forall x | x in Txids(b.txs) :: x !in others && (exact ==> x !in c.txs))
    && (forall o | o in Created(b.creates) && o.kind == KIND_REGULAR :: o.source in others || o.source in Txids(b.txs))
    && (forall s | s in b.spends :: s.source in others || s.source in Txids(b.txs))
  }

  lemma AppliedNamed(
    c: Confirmed, b: Block, marks: map<OutPoint, Mark>, others: iset<Hash>, exact: bool, id: Hash, h: nat)
    requires OwnRows(c, b, others, exact)
    requires forall x | x in c.txs :: c.txs[x].height < b.height
    requires Named(c, others, exact, id, h) || (id in Txids(b.txs) && h == b.height)
    ensures Named(Applied(c, b, marks), others, exact, id, h)
  {
  }

  /** Marks of the block are by its own ids. */
  lemma MarkNamed(c: Confirmed, b: Block, marks: map<OutPoint, Mark>, others: iset<Hash>, exact: bool, o: OutPoint)
    requires OwnRows(c, b, others, exact) && Picks(b.height, b.spends, marks) && o in marks
    ensures marks[o].height == b.height && (marks[o].source in others || marks[o].source in Txids(b.txs))
  {
    var i :| 0 <= i < |b.spends| && b.spends[i].outpoint == o && marks[o] == MarkOf(b.height, b.spends[i]);
    assert b.spends[i] in b.spends;
  }

  lemma AppliedSourcedAt(
    c: Confirmed, b: Block, marks: map<OutPoint, Mark>, others: iset<Hash>, exact: bool, o: OutPoint)
    requires OwnRows(c, b, others, exact) && Picks(b.height, b.spends, marks)
    requires forall x | x in c.txs :: c.txs[x].height < b.height
    requires SourcedAt(c, others, exact, o) && o in WithCreates(c, b)
    ensures SourcedAt(Applied(c, b, marks), others, exact, o)
  {
    var row := WithCreates(c, b)[o];
    if o.kind == KIND_REGULAR {
      AppliedNamed(c, b, marks, others, exact, o.source, row.height);
    }
    if o in marks {
      MarkNamed(c, b, marks, others, exact, o);
      AppliedNamed(c, b, marks, others, exact, marks[o].source, b.height);
    } else if row.spent.Some? {
      AppliedNamed(c, b, marks, others, exact, row.spent.value.source, row.spent.value.height);
    }
  }

  lemma AppliedSourced(c: Confirmed, b: Block, marks: map<OutPoint, Mark>, others: iset<Hash>, exact: bool)
    requires Sound(c) && Accepts(c, b) && b.height == NextHeight(c) && Picks(b.height, b.spends, marks)
    requires Sourced(c, others, exact) && OwnRows(c, b, others, exact)
    ensures Sourced(Applied(c, b, marks), others, exact)
  {
    var d := Applied(c, b, marks);
    forall x | x in c.txs
      ensures c.txs[x].height < b.height
    {
      assert TxAnchored(c, x);
    }
    forall x | x in d.txs
      ensures x !in others
    {
      assert x in FirstTxs(b.height, b.txs) + c.txs;
    }
    forall o
      ensures SourcedAt(d, others, exact, o)
    {
      if o in WithCreates(c, b) {
        assert SourcedAt(c, others, exact, o);
        AppliedSourcedAt(c, b, marks, others, exact, o);
      }
    }
  }

  lemma RolledBackSourced(c: Confirmed, h: nat, others: iset<Hash>, exact: bool)
    requires Sourced(c, others, exact)
    ensures Sourced(RolledBack(c, h), others, exact)
  {
    var d := RolledBack(c, h);
    forall o
      ensures SourcedAt(d, others, exact, o)
    {
      assert SourcedAt(c, others, exact, o);
      if o in d.outputs {
        assert d.outputs[o] == Unspent(c.outputs[o], h);
      }
    }
  }

  lemma TouchedNamed(c: Confirmed, others: iset<Hash>, exact: bool, mine: Owner, r: Ref)
    requires Sourced(c, others, exact) && r in Touched(c.outputs, mine)
    ensures Named(c, others, exact, r.txid, r.height)
  {
    var o :| o in c.outputs && mine(c.outputs[o].coin.address)
      && ((o.kind == KIND_REGULAR && r == Ref(o.source, c.outputs[o].height))
          || (c.outputs[o].spent.Some? && r == Ref(c.outputs[o].spent.value.source, c.outputs[o].spent.value.height)));
    assert SourcedAt(c, others, exact, o);
  }

  /**
   Where every row is sourced, each owner's history resolves. With new txids it does so completely, at the
   transactions' own heights, if and only if the owner was touched by none of the other ids.
   */
  lemma SourcedResolves(c: Confirmed, others: iset<Hash>, exact: bool, mine: Owner, list: seq<Ref>)
    requires Sourced(c, others, exact) && IsHistory(list, Touched(c.outputs, mine))
    ensures Resolves(list, c.txs)
    ensures exact ==> (ResolvesExactly(list, c.txs) <==> forall r | r in list :: r.txid !in others)
  {
    forall r | r in list
      ensures Named(c, others, exact, r.txid, r.height)
    {
      TouchedNamed(c, others, exact, mine, r);
    }
  }

  // ----- When a transaction is referenced at one height

  /** Some output row references `id` at height `h`, by what made it or by what spent it. */
  predicate RefersAt(c: Confirmed, o: OutPoint, id: Hash, h: nat) {
    && o in c.outputs
    && (|| (o.kind == KIND_REGULAR && o.source == id && c.outputs[o].height == h)
        || (c.outputs[o].spent.Some? && c.outputs[o].spent.value.source == id && c.outputs[o].spent.value.height == h))
  }

  ghost predicate Refers(c: Confirmed, id: Hash) {
    exists o, h :: RefersAt(c, o, id, h)
  }

  predicate TwoHeights(c: Confirmed, id: Hash, o: OutPoint, h: nat, p: OutPoint, k: nat) {
    RefersAt(c, o, id, h) && RefersAt(c, p, id, k) && h != k
  }

  /** No id but the other ones is referenced at two heights. */
  ghost predicate OneHeight(c: Confirmed, others: iset<Hash>) {
    forall id, o, h, p, k | id !in others :: !TwoHeights(c, id, o, h, p, k)
  }

  /**
   A listed transaction acts once: if it already made or spent a coin, it makes none that the index does not hold and
   spends none that it holds. Listing it again is allowed, as with a trade skipped before or the very same
   transaction without inputs.
   */
  ghost predicate ActsOnce(c: Confirmed, b: Block) {
    forall x | x in Txids(b.txs) && Refers(c, x) ::
      && (forall o | o in Created(b.creates) && o.kind == KIND_REGULAR && o.source == x :: o in c.outputs)
      && (forall s | s in b.spends && s.source == x :: s.outpoint !in WithCreates(c, b))
  }

  /** What the block adds is at its own height, and only for ids that had no reference. */
  lemma AppliedRefers(
    c: Confirmed, b: Block, marks: map<OutPoint, Mark>, others: iset<Hash>, o: OutPoint, id: Hash, h: nat)
    requires OwnRows(c, b, others, false) && ActsOnce(c, b) && Picks(b.height, b.spends, marks)
    requires id !in others && RefersAt(Applied(c, b, marks), o, id, h)
    ensures RefersAt(c, o, id, h) || (h == b.height && !Refers(c, id))
  {
    var d, row := Applied(c, b, marks), WithCreates(c, b)[o];
    assert d.outputs[o] == if o in marks then row.(spent := Some(marks[o])) else row;
    if o in marks && marks[o].source == id {
      NewMarkActs(c, b, marks, others, o);
    }
    if o !in c.outputs && o.kind == KIND_REGULAR && o.source == id {
      assert !Refers(c, id) && row.height == b.height;
    }
  }

  lemma NewMarkActs(c: Confirmed, b: Block, marks: map<OutPoint, Mark>, others: iset<Hash>, o: OutPoint)
    requires OwnRows(c, b, others, false) && ActsOnce(c, b) && Picks(b.height, b.spends, marks)
    requires o in marks && o in WithCreates(c, b) && marks[o].source !in others
    ensures marks[o].height == b.height && !Refers(c, marks[o].source)
  {
    var i :| 0 <= i < |b.spends| && b.spends[i].outpoint == o && marks[o] == MarkOf(b.height, b.spends[i]);
    assert b.spends[i] in b.spends;
  }

  lemma AppliedOneHeight(c: Confirmed, b: Block, marks: map<OutPoint, Mark>, others: iset<Hash>)
    requires OneHeight(c, others) && OwnRows(c, b, others, false) && ActsOnce(c, b) && Picks(b.height, b.spends, marks)
    ensures OneHeight(Applied(c, b, marks), others)
  {
    var d := Applied(c, b, marks);
    forall id, o, h: nat, p, k: nat | id !in others
      ensures !TwoHeights(d, id, o, h, p, k)
    {
      if RefersAt(d, o, id, h) && RefersAt(d, p, id, k) {
        AppliedRefers(c, b, marks, others, o, id, h);
        AppliedRefers(c, b, marks, others, p, id, k);
        assert !TwoHeights(c, id, o, h, p, k);
      }
    }
  }

  lemma RolledBackOneHeight(c: Confirmed, height: nat, others: iset<Hash>)
    requires OneHeight(c, others)
    ensures OneHeight(RolledBack(c, height), others)
  {
    var d := RolledBack(c, height);
    forall id, o, h: nat, p, k: nat | id !in others
      ensures !TwoHeights(d, id, o, h, p, k)
    {
      assert !TwoHeights(c, id, o, h, p, k);
    }
  }

  /** New txids act once. */
  lemma NewActsOnce(c: Confirmed, b: Block, others: iset<Hash>, exact: bool)
    requires Sourced(c, others, exact) && OwnRows(c, b, others, true)
    ensures ActsOnce(c, b)
  {
    forall x | x in Txids(b.txs)
      ensures !Refers(c, x)
    {
      forall o, h: nat
        ensures !RefersAt(c, o, x, h)
      {
        assert SourcedAt(c, others, exact, o);
      }
    }
  }

  lemma TouchedRefers(c: Confirmed, mine: Owner, r: Ref) returns (o: OutPoint)
    requires r in Touched(c.outputs, mine)
    ensures RefersAt(c, o, r.txid, r.height)
  {
    o :| o in c.outputs && mine(c.outputs[o].coin.address)
      && ((o.kind == KIND_REGULAR && r == Ref(o.source, c.outputs[o].height))
          || (c.outputs[o].spent.Some? && r == Ref(c.outputs[o].spent.value.source, c.outputs[o].spent.value.height)));
  }

  /** Then every owner's history references each transaction at one height. */
  lemma OneHeightHistory(c: Confirmed, others: iset<Hash>, mine: Owner, list: seq<Ref>)
    requires OneHeight(c, others) && (forall x | x in c.txs :: x !in others)
    requires IsHistory(list, Touched(c.outputs, mine))
    ensures OneHeightEach(list, c.txs)
  {
    forall r, q | r in list && q in list && r.txid == q.txid && r.txid in c.txs
      ensures r.height == q.height
    {
      var o := TouchedRefers(c, mine, r);
      var p := TouchedRefers(c, mine, q);
      assert !TwoHeights(c, r.txid, o, r.height, p, q.height);
    }
  }

  /** A txid listed again, as a trade skipped at first is, stays indexed where it was listed first. */
  lemma RelistedStaysEarlier(c: Confirmed, b: Block, marks: map<OutPoint, Mark>, mine: Owner, o: OutPoint)
    requires Sound(c) && Accepts(c, b) && b.height == NextHeight(c)
    requires o in Created(b.creates) && o !in c.outputs && o.kind == KIND_REGULAR && o.source in c.txs
    requires mine(FirstOutputs(b.height, b.hash, b.creates)[o].coin.address)
    ensures var d := Applied(c, b, marks);
      && Ref(o.source, b.height) in Touched(d.outputs, mine)
      && o.source in d.txs && d.txs[o.source].height < b.height
  {
    var d := Applied(c, b, marks);
    assert TxAnchored(c, o.source);
    assert o in d.outputs && d.outputs[o].height == b.height;
  }

  predicate ListsTx(index: BlockIndex, id: Hash) {
    exists t | t in index.txs :: t.txid == id
  }

  /** The ids in the node's answers: listed transactions are none of `others`, and every other id is one or listed. */
  ghost predicate IdsApart(c: Confirmed, hash: Hash, index: BlockIndex, others: iset<Hash>, exact: bool) {
    && (forall t | t in index.txs :: t.txid !in others && (exact ==> t.txid !in c.txs))
    && (forall p | p in index.marketCreates && p.outpoint.kind == KIND_REGULAR ::
          p.outpoint.source in others || ListsTx(index, p.outpoint.source))
    && (forall s | s in index.bundleSpends :: s.m6id in others || ListsTx(index, s.m6id))
    && (index.marketDeletes != [] ==> hash in others || ListsTx(index, hash))
  }

  lemma ListedTxids(index: BlockIndex, id: Hash)
    ensures id in Txids(TxRows(index.txs)) <==> ListsTx(index, id)
  {
    if ListsTx(index, id) {
      var i :| 0 <= i < |index.txs| && index.txs[i].txid == id;
      assert TxRows(index.txs)[i].txid == id;
    }
  }

  lemma OwnCreates(
    height: nat, hash: Hash, nb: NodeBlock, index: BlockIndex, codec: Codec, b: Block, others: iset<Hash>)
    requires Prepared(height, hash, nb, index, codec) == Some(b)
    ensures (forall o | o in Created(b.creates) && o.kind == KIND_REGULAR ::
               o.source in others || ListsTx(index, o.source))
       <==> (forall p | p in index.marketCreates && p.outpoint.kind == KIND_REGULAR ::
               p.outpoint.source in others || ListsTx(index, p.outpoint.source))
  {
    forall p | p in index.marketCreates
      ensures p.outpoint in Created(b.creates)
    {
      var i :| 0 <= i < |index.marketCreates| && index.marketCreates[i] == p;
      var row := PlacedRows(index.marketCreates, codec)[i];
      assert PlacedRow(index.marketCreates, codec, i, row);
      CreatesExplained(height, hash, nb, index, codec, b, row);
    }
    forall o | o in Created(b.creates) && o.kind == KIND_REGULAR
      ensures ListsTx(index, o.source) || exists p | p in index.marketCreates :: p.outpoint == o
    {
      var i :| 0 <= i < |b.creates| && b.creates[i].outpoint == o;
      CreatesExplained(height, hash, nb, index, codec, b, b.creates[i]);
    }
  }

  lemma OwnSpends(height: nat, hash: Hash, nb: NodeBlock, index: BlockIndex, codec: Codec, b: Block, others: iset<Hash>)
    requires Prepared(height, hash, nb, index, codec) == Some(b)
    ensures (forall s | s in b.spends :: s.source in others || ListsTx(index, s.source))
       <==> && (forall s | s in index.bundleSpends :: s.m6id in others || ListsTx(index, s.m6id))
            && (index.marketDeletes != [] ==> hash in others || ListsTx(index, hash))
  {
    forall s | s in index.bundleSpends
      ensures exists t | t in b.spends :: t.source == s.m6id
    {
      var i :| 0 <= i < |index.bundleSpends| && index.bundleSpends[i] == s;
      var row := BundleRows(index.bundleSpends)[i];
      assert BundleRow(index, i, row);
      SpendsExplained(height, hash, nb, index, codec, b, row);
    }
    if index.marketDeletes != [] {
      var row := DeleteRows(index.marketDeletes, hash)[0];
      assert DeleteRow(index, hash, 0, row);
      SpendsExplained(height, hash, nb, index, codec, b, row);
    }
    forall s | s in b.spends
      ensures || ListsTx(index, s.source)
              || (exists t | t in index.bundleSpends :: t.m6id == s.source)
              || (index.marketDeletes != [] && s.source == hash)
    {
      SpendsExplained(height, hash, nb, index, codec, b, s);
    }
  }

  /** A readable block carries such rows if and only if the ids in the node's answers are sorted so. */
  lemma PreparedOwnRows(
    c: Confirmed, height: nat, hash: Hash, nb: NodeBlock, index: BlockIndex, codec: Codec, b: Block,
    others: iset<Hash>, exact: bool)
    requires Prepared(height, hash, nb, index, codec) == Some(b)
    ensures OwnRows(c, b, others, exact) <==> IdsApart(c, hash, index, others, exact)
  {
    assert b.txs == TxRows(index.txs);
    forall id
      ensures id in Txids(b.txs) <==> ListsTx(index, id)
    {
      ListedTxids(index, id);
    }
    OwnCreates(height, hash, nb, index, codec, b, others);
    OwnSpends(height, hash, nb, index, codec, b, others);
  }

  /** In every run of such blocks, with any rollbacks and snapshots between them, every history resolves. */
  lemma {:induction false} SourcedOverRuns(
    states: seq<State>, events: seq<Runs.Event>, n: nat, others: iset<Hash>, exact: bool)
    requires Runs.IsRun(states, events) && n < |states| && states[0] == BLANK
    requires forall k | 0 <= k < |events| :: Runs.InStep(states[k], events[k])
    requires forall k | 0 <= k < |events| && events[k].ApplyBlock? ::
      OwnRows(states[k].c, events[k].write.block, others, exact)
    ensures Sound(states[n].c) && Sourced(states[n].c, others, exact)
    decreases n
  {
    EmptySound();
    Runs.SoundOverRuns(states, events, n);
    if n == 0 {
    } else {
      SourcedOverRuns(states, events, n - 1, others, exact);
      assert Runs.StepAt(states, events, n - 1);
      StepKeepsSourced(states[n - 1], events[n - 1], others, exact);
    }
  }

  lemma StepKeepsSourced(s: State, e: Runs.Event, others: iset<Hash>, exact: bool)
    requires Sound(s.c) && Sourced(s.c, others, exact) && Runs.InStep(s, e)
    requires e.ApplyBlock? ==> OwnRows(s.c, e.write.block, others, exact)
    ensures Sourced(Runs.Step(s, e).c, others, exact)
  {
    match e {
      case Snapshot(pool, now) =>
      case ApplyBlock(w) =>
        if Accepts(s.c, w.block) {
          AppliedSourced(s.c, w.block, w.marks, others, exact);
        }
      case RollbackTo(h) =>
        RolledBackSourced(s.c, h, others, exact);
    }
  }

  /** Over runs in which every listed transaction acts once, each is referenced at one height. */
  lemma {:induction false} OneHeightOverRuns(states: seq<State>, events: seq<Runs.Event>, n: nat, others: iset<Hash>)
    requires Runs.IsRun(states, events) && n < |states| && states[0] == BLANK
    requires forall k | 0 <= k < |events| :: Runs.InStep(states[k], events[k])
    requires forall k | 0 <= k < |events| && events[k].ApplyBlock? ::
      OwnRows(states[k].c, events[k].write.block, others, false) && ActsOnce(states[k].c, events[k].write.block)
    ensures OneHeight(states[n].c, others)
    decreases n
  {
    if n == 0 {
    } else {
      OneHeightOverRuns(states, events, n - 1, others);
      assert Runs.StepAt(states, events, n - 1);
      StepKeepsOneHeight(states[n - 1], events[n - 1], others);
    }
  }

  lemma StepKeepsOneHeight(s: State, e: Runs.Event, others: iset<Hash>)
    requires OneHeight(s.c, others) && Runs.InStep(s, e)
    requires e.ApplyBlock? ==> OwnRows(s.c, e.write.block, others, false) && ActsOnce(s.c, e.write.block)
    ensures OneHeight(Runs.Step(s, e).c, others)
  {
    match e {
      case Snapshot(pool, now) =>
      case ApplyBlock(w) =>
        if Accepts(s.c, w.block) {
          AppliedOneHeight(s.c, w.block, w.marks, others);
        }
      case RollbackTo(h) =>
        RolledBackOneHeight(s.c, h, others);
    }
  }

  // ----- From the node's blocks to the client's pages

  /** A block event was prepared from an answer of the node whose ids are sorted. */
  ghost predicate FromNode(s: State, e: Runs.Event, codec: Codec, others: iset<Hash>, exact: bool) {
    e.ApplyBlock? ==>
      exists height, hash, nb, index ::
        Prepared(height, hash, nb, index, codec) == Some(e.write.block) && IdsApart(s.c, hash, index, others, exact)
  }

  lemma FromNodeOwnRows(s: State, e: Runs.Event, codec: Codec, others: iset<Hash>, exact: bool)
    requires FromNode(s, e, codec, others, exact) && e.ApplyBlock?
    ensures OwnRows(s.c, e.write.block, others, exact)
  {
    var height, hash, nb, index :|
      Prepared(height, hash, nb, index, codec) == Some(e.write.block) && IdsApart(s.c, hash, index, others, exact);
    PreparedOwnRows(s.c, height, hash, nb, index, codec, e.write.block, others, exact);
  }

  /** `states` is a run from nothing over blocks the node served, with any rollbacks and snapshots between. */
  ghost predicate NodeRun(states: seq<State>, events: seq<Runs.Event>, codec: Codec, others: iset<Hash>, exact: bool) {
    && Runs.IsRun(states, events) && states[0] == BLANK
    && (forall k | 0 <= k < |events| :: Runs.InStep(states[k], events[k]))
    && (forall k | 0 <= k < |events| :: FromNode(states[k], events[k], codec, others, exact))
  }

  /** Every block of the run lists transactions that act once. */
  ghost predicate AllActOnce(states: seq<State>, events: seq<Runs.Event>) {
    forall k | 0 <= k < |events| && k < |states| && events[k].ApplyBlock? ::
      ActsOnce(states[k].c, events[k].write.block)
  }

  lemma RunOwnRows(states: seq<State>, events: seq<Runs.Event>, codec: Codec, others: iset<Hash>, exact: bool)
    requires NodeRun(states, events, codec, others, exact)
    ensures forall k | 0 <= k < |events| && events[k].ApplyBlock? ::
      OwnRows(states[k].c, events[k].write.block, others, exact)
  {
    forall k | 0 <= k < |events| && events[k].ApplyBlock?
      ensures OwnRows(states[k].c, events[k].write.block, others, exact)
    {
      FromNodeOwnRows(states[k], events[k], codec, others, exact);
    }
  }

  /** Runs in which every listed txid is new are such runs. */
  lemma NewRunsActOnce(states: seq<State>, events: seq<Runs.Event>, codec: Codec, others: iset<Hash>)
    requires NodeRun(states, events, codec, others, true)
    ensures AllActOnce(states, events)
  {
    RunOwnRows(states, events, codec, others, true);
    forall k: nat | k < |events| && k < |states| && events[k].ApplyBlock?
      ensures ActsOnce(states[k].c, events[k].write.block)
    {
      SourcedOverRuns(states, events, k, others, true);
      NewActsOnce(states[k].c, events[k].write.block, others, true);
    }
  }

  /**
   In every state of every run over the node's blocks, whoever owns the address: the client reads references of the
   history in its order, none twice, and all that name a transaction if and only if no page jumps over one. It reads
   no transaction twice when each acts once, however often it is listed. When every listed txid was new, an owner
   touched by transactions alone reads the whole history exactly once if and only if no page boundary falls inside a
   block.
   */
  lemma PagesOverRuns(
    states: seq<State>, events: seq<Runs.Event>, n: nat, codec: Codec, others: iset<Hash>, exact: bool,
    mine: Owner, list: seq<Ref>, bound: nat)
    requires NodeRun(states, events, codec, others, exact) && n < |states|
    requires IsHistory(list, Touched(states[n].c.outputs, mine))
    ensures var txs := states[n].c.txs; var read := Reader(list, txs);
      && Fits(read, txs) && Ordered(Followed(read, txs, bound))
      && (forall r | r in Followed(read, txs, bound) :: r in list)
      && (Followed(read, txs, bound) == Shown(list[Skip(list, bound)..], txs) <==> LosesNone(read, list, txs, bound))
    ensures var txs := states[n].c.txs; var all := Followed(Reader(list, txs), txs, bound);
      AllActOnce(states, events) ==> forall i, j | 0 <= i < j < |all| :: all[i].txid != all[j].txid
    ensures var txs := states[n].c.txs; var i := Skip(list, bound);
      exact && (forall r | r in list :: r.txid !in others) ==>
        (Followed(Reader(list, txs), txs, bound) == list[i..] <==> CleanCuts(list, i))
  {
    RunOwnRows(states, events, codec, others, exact);
    SourcedOverRuns(states, events, n, others, exact);
    SourcedResolves(states[n].c, others, exact, mine, list);
    NeverRepeats(list, states[n].c.txs, bound);
    PagesCoverExactly(list, states[n].c.txs, bound);
    if AllActOnce(states, events) {
      OneHeightOverRuns(states, events, n, others);
      OneHeightHistory(states[n].c, others, mine, list);
      NoTransactionTwice(list, states[n].c.txs, bound);
    }
    if exact && forall r | r in list :: r.txid !in others {
      PagesCoverHistory(list, states[n].c.txs, bound);
    }
  }
}
