/** The store: tables that change in place, one database transaction per method. */
module Stores {
  import opened Rows
  import opened Sums
  import opened Ledger
  import opened Undo
  import opened Coins
  import opened Overlay
  import opened Balances

  // ----- The statements of Apply, as loops over the rows of the block

  lemma FirstTxsStep(table: map<Hash, TxRow>, height: nat, txs: seq<Tx>, i: nat)
    requires i < |txs|
    ensures var before := FirstTxs(height, txs[..i]) + table;
      FirstTxs(height, txs[..i + 1]) + table
      == if txs[i].txid in before then before else before[txs[i].txid := TxRowOf(height, txs[i])]
  {
    assert txs[..i + 1][..i] == txs[..i];
  }

  method InsertTxs(table: map<Hash, TxRow>, height: nat, txs: seq<Tx>) returns (r: map<Hash, TxRow>)
    ensures r == FirstTxs(height, txs) + table
  {
    r := table;
    for i := 0 to |txs|
      invariant r == FirstTxs(height, txs[..i]) + table
    {
      FirstTxsStep(table, height, txs, i);
      if txs[i].txid !in r {
        r := r[txs[i].txid := TxRowOf(height, txs[i])];
      }
    }
    assert txs[..|txs|] == txs;
  }

  /** Whether a coinbase row of block `hash` already takes position `vout`. */
  method CoinbaseTaken(table: Outputs, hash: Hash, vout: uint32) returns (taken: bool)
    ensures taken <==> exists p | p in table :: p.kind == KIND_COINBASE && table[p].blockHash == hash && p.vout == vout
  {
    var todo := table.Keys;
    while todo != {}
      invariant todo <= table.Keys
      invariant forall p | p in table && p !in todo ::
        !(p.kind == KIND_COINBASE && table[p].blockHash == hash && p.vout == vout)
      decreases |todo|
    {
      var p :| p in todo;
      if p.kind == KIND_COINBASE && table[p].blockHash == hash && p.vout == vout {
        return true;
      }
      todo := todo - {p};
    }
    return false;
  }

  lemma FirstOutputsStep(height: nat, hash: Hash, creates: seq<Output>, k: nat)
    requires k < |creates|
    ensures var before := FirstOutputs(height, hash, creates[..k]); var o := creates[k].outpoint;
      FirstOutputs(height, hash, creates[..k + 1])
      == if o in before then before else before[o := OutputRowOf(height, hash, creates[k])]
  {
    assert creates[..k + 1][..k] == creates[..k];
  }

  lemma ClashSpreads(table: Outputs, height: nat, hash: Hash, creates: seq<Output>, i: nat, p: OutPoint)
    requires i < |creates| && p in FirstOutputs(height, hash, creates[..i]) + table
    requires var before := FirstOutputs(height, hash, creates[..i]) + table; var o := creates[i].outpoint;
      && o !in before && o.kind == KIND_COINBASE && p.kind == KIND_COINBASE
      && before[p].blockHash == hash && p.vout == o.vout
    ensures !UniqueCoinbase(FirstOutputs(height, hash, creates) + table)
  {
    var o, all := creates[i].outpoint, FirstOutputs(height, hash, creates) + table;
    assert o in Created(creates);
    if p in Created(creates[..i]) {
      var k :| 0 <= k < i && creates[..i][k].outpoint == p;
      assert creates[k].outpoint == p;
    }
    assert CoinbaseClash(all, o, p);
  }

  lemma InsertKeepsUnique(table: Outputs, o: OutPoint, row: OutputRow)
    requires UniqueCoinbase(table) && o !in table
    requires o.kind == KIND_COINBASE ==>
      !exists p | p in table :: p.kind == KIND_COINBASE && table[p].blockHash == row.blockHash && p.vout == o.vout
    ensures UniqueCoinbase(table[o := row])
  {
    var next := table[o := row];
    forall p, q
      ensures !CoinbaseClash(next, p, q)
    {
      assert !CoinbaseClash(table, p, q);
    }
  }

  /** Inserts one row unless its outpoint is held; fails when it breaks the coinbase index. */
  method InsertOutput(table: Outputs, height: nat, hash: Hash, create: Output)
    returns (clash: Option<OutPoint>, r: Outputs)
    requires UniqueCoinbase(table)
    ensures clash.Some? ==> var o, p := create.outpoint, clash.value;
      && o !in table && p in table && o.kind == KIND_COINBASE && p.kind == KIND_COINBASE
      && table[p].blockHash == hash && p.vout == o.vout
    ensures clash.None? ==> UniqueCoinbase(r)
    ensures clash.None? ==>
      r == if create.outpoint in table then table else table[create.outpoint := OutputRowOf(height, hash, create)]
  {
    r := table;
    var o := create.outpoint;
    if o in table {
      return None, table;
    }
    if o.kind == KIND_COINBASE {
      var taken := CoinbaseTaken(table, hash, o.vout);
      if taken {
        var p :| p in table && p.kind == KIND_COINBASE && table[p].blockHash == hash && p.vout == o.vout;
        return Some(p), table;
      }
    }
    InsertKeepsUnique(table, o, OutputRowOf(height, hash, create));
    return None, table[o := OutputRowOf(height, hash, create)];
  }

  lemma InsertStep(table: Outputs, height: nat, hash: Hash, creates: seq<Output>, i: nat)
    requires i < |creates|
    ensures var before := FirstOutputs(height, hash, creates[..i]) + table; var o := creates[i].outpoint;
      FirstOutputs(height, hash, creates[..i + 1]) + table
      == if o in before then before else before[o := OutputRowOf(height, hash, creates[i])]
  {
    FirstOutputsStep(height, hash, creates, i);
  }

  /** Inserts the creates in order; fails as soon as one breaks the coinbase index. */
  method InsertOutputs(table: Outputs, height: nat, hash: Hash, creates: seq<Output>) returns (ok: bool, r: Outputs)
    requires UniqueCoinbase(table)
    ensures ok <==> UniqueCoinbase(FirstOutputs(height, hash, creates) + table)
    ensures ok ==> r == FirstOutputs(height, hash, creates) + table
  {
    r := table;
    assert FirstOutputs(height, hash, creates[..0]) + table == table;
    for i := 0 to |creates|
      invariant r == FirstOutputs(height, hash, creates[..i]) + table
      invariant UniqueCoinbase(r)
    {
      var clash, next := InsertOutput(r, height, hash, creates[i]);
      if clash.Some? {
        ClashSpreads(table, height, hash, creates, i, clash.value);
        return false, table;
      }
      InsertStep(table, height, hash, creates, i);
      r := next;
    }
    assert creates[..|creates|] == creates;
    ok := true;
  }

  lemma PicksGrow(height: nat, spends: seq<Spend>, i: nat, marks: map<OutPoint, Mark>)
    requires i < |spends| && Picks(height, spends[..i], marks)
    ensures Picks(height, spends[..i + 1], marks[spends[i].outpoint := MarkOf(height, spends[i])])
    ensures spends[i].outpoint in marks ==> Picks(height, spends[..i + 1], marks)
  {
    var more, s := spends[..i + 1], spends[i];
    assert more == spends[..i] + [s];
    assert Consumed(more) == Consumed(spends[..i]) + {s.outpoint} by {
      assert more[i] == s;
      assert forall k | 0 <= k < i :: more[k] == spends[..i][k];
    }
    forall o | o in marks
      ensures exists k | 0 <= k < |more| :: more[k].outpoint == o && marks[o] == MarkOf(height, more[k])
    {
      var k :| 0 <= k < i && spends[..i][k].outpoint == o && marks[o] == MarkOf(height, spends[..i][k]);
      assert more[k] == spends[..i][k];
    }
    assert more[i].outpoint == s.outpoint;
  }

  /**
   Marks the spent rows. When several spends name one outpoint the UPDATE uses one of them, and which
   one is open. Returns how many rows it matched.
   */
  method ApplySpends(table: Outputs, height: nat, spends: seq<Spend>)
    returns (r: Outputs, applied: nat, marks: map<OutPoint, Mark>)
    ensures Picks(height, spends, marks)
    ensures r == Marked(table, marks)
    ensures applied == |Consumed(spends) * table.Keys|
  {
    marks := map[];
    for i := 0 to |spends|
      invariant Picks(height, spends[..i], marks)
    {
      PicksGrow(height, spends, i, marks);
      var first := spends[i].outpoint !in marks;
      if first {
        marks := marks[spends[i].outpoint := MarkOf(height, spends[i])];
      } else if * {
        marks := marks[spends[i].outpoint := MarkOf(height, spends[i])];
      }
    }
    assert spends[..|spends|] == spends;
    r := Marked(table, marks);
    applied := |marks.Keys * table.Keys|;
  }

  method SumOf<K>(m: map<K, int>) returns (total: int)
    ensures total == Sum(m)
  {
    total := 0;
    var todo := m;
    while todo != map[]
      invariant total + Sum(todo) == Sum(m)
      decreases |todo|
    {
      var k :| k in todo;
      SumRemove(todo, k);
      total := total + todo[k];
      todo := todo - {k};
    }
  }

  method SetFees(txs: map<Hash, TxRow>, outputs: Outputs, height: nat) returns (r: map<Hash, TxRow>)
    ensures r == WithFees(txs, outputs, height)
  {
    r := txs;
    var todo := txs.Keys;
    while todo != {}
      invariant todo <= txs.Keys && r.Keys == txs.Keys
      invariant forall x | x in todo :: r[x] == txs[x]
      invariant forall x | x in txs && x !in todo :: r[x] == WithFees(txs, outputs, height)[x]
      decreases |todo|
    {
      var x :| x in todo;
      if txs[x].height == height {
        var taken := SumOf(InputValues(outputs, x, height));
        var made := SumOf(OutputValues(outputs, x, height));
        r := r[x := txs[x].(fee := AtLeastZero(taken - made))];
      }
      todo := todo - {x};
    }
  }

  method HashExists(blocks: map<nat, BlockRow>, hash: Hash) returns (found: bool)
    ensures found == HashTaken(blocks, hash)
  {
    var todo := blocks.Keys;
    while todo != {}
      invariant todo <= blocks.Keys
      invariant forall k | k in blocks && k !in todo :: blocks[k].hash != hash
      decreases |todo|
    {
      var k :| k in todo;
      if blocks[k].hash == hash {
        return true;
      }
      todo := todo - {k};
    }
    return false;
  }

  /** The statements of one Apply in order, on a scratch copy of the tables. */
  method WriteBlock(c: Confirmed, b: Block) returns (next: Option<Confirmed>, applied: nat, marks: map<OutPoint, Mark>)
    requires UniqueCoinbase(c.outputs)
    ensures next.Some? <==> Accepts(c, b)
    ensures next.Some? ==> Picks(b.height, b.spends, marks) && next.value == Applied(c, b, marks)
    ensures next.Some? ==> applied == |Consumed(b.spends) * WithCreates(c, b).Keys|
  {
    next, applied, marks := None, 0, map[];
    var duplicate := HashExists(c.blocks, b.hash);
    if b.height in c.blocks || duplicate {
      return;
    }
    var txs := InsertTxs(c.txs, b.height, b.txs);
    var ok, made := InsertOutputs(c.outputs, b.height, b.hash, b.creates);
    if !ok {
      return;
    }
    var rows;
    rows, applied, marks := ApplySpends(made, b.height, b.spends);
    txs := SetFees(txs, rows, b.height);
    next := Some(Confirmed(c.blocks[b.height := BlockRowOf(b)], txs, rows, Some(Tip(b.height, b.hash))));
  }

  /** The statements of one Rollback in order, on a scratch copy of the tables. */
  method UndoBlocks(c: Confirmed, height: nat) returns (next: Confirmed)
    ensures next == RolledBack(c, height)
  {
    var unspent := map o | o in c.outputs :: Unspent(c.outputs[o], height);
    var outputs := map o | o in unspent && unspent[o].height <= height :: unspent[o];
    assert outputs == RolledBack(c, height).outputs;
    var gone := set k | k in c.blocks && k > height;
    var txs := map x | x in c.txs && c.txs[x].height !in gone :: c.txs[x];
    assert txs == RolledBack(c, height).txs;
    var blocks := map k | k in c.blocks && k <= height :: c.blocks[k];
    next := Confirmed(blocks, txs, outputs, None);
    if height in blocks {
      next := next.(tip := Some(Tip(height, blocks[height].hash)));
    }
  }

  // ----- The statements of ReplaceMempool

  lemma DistinctStep(txs: seq<Tx>, i: nat)
    requires i < |txs| && DistinctTxids(txs[..i])
    ensures DistinctTxids(txs[..i + 1]) <==> txs[i].txid !in Txids(txs[..i])
    ensures txs[i].txid in Txids(txs[..i]) ==> !DistinctTxids(txs)
  {
  }

  lemma PendingStep(before: map<Hash, PendingTx>, txs: seq<Tx>, i: nat, now: int)
    requires i < |txs| && DistinctTxids(txs[..i]) && DistinctTxids(txs[..i + 1])
    ensures PendingTxs(before, txs[..i + 1], now) == PendingTxs(before, txs[..i], now)[txs[i].txid :=
      PendingTx(txs[i].index, txs[i].size, 0, txs[i].raw, SeenAt(before, txs[i].txid, now))]
  {
    assert txs[..i + 1][..i] == txs[..i];
  }

  method InsertPending(before: map<Hash, PendingTx>, txs: seq<Tx>, now: int) returns (ok: bool, r: map<Hash, PendingTx>)
    ensures ok == DistinctTxids(txs)
    ensures ok ==> r == PendingTxs(before, txs, now)
  {
    r := map[];
    for i := 0 to |txs|
      invariant DistinctTxids(txs[..i]) && r == PendingTxs(before, txs[..i], now)
    {
      DistinctStep(txs, i);
      if txs[i].txid in r {
        return false, r;
      }
      PendingStep(before, txs, i, now);
      var at := if txs[i].txid in before then before[txs[i].txid].firstSeen else now;
      r := r[txs[i].txid := PendingTx(txs[i].index, txs[i].size, 0, txs[i].raw, at)];
    }
    assert txs[..|txs|] == txs;
    ok := true;
  }

  lemma FirstCoinsStep(creates: seq<Output>, i: nat)
    requires i < |creates|
    ensures var before := FirstCoins(creates[..i]); var o := creates[i].outpoint;
      FirstCoins(creates[..i + 1]) == if o in before then before else before[o := creates[i].coin]
  {
    assert creates[..i + 1][..i] == creates[..i];
  }

  lemma FirstClaimsStep(spends: seq<Spend>, i: nat)
    requires i < |spends|
    ensures var before := FirstClaims(spends[..i]); var o := spends[i].outpoint;
      FirstClaims(spends[..i + 1]) ==
        if o in before then before else before[o := Claim(spends[i].source, spends[i].kind, spends[i].vin)]
  {
    assert spends[..i + 1][..i] == spends[..i];
  }

  method InsertPendingCoins(creates: seq<Output>) returns (r: map<OutPoint, Coin>)
    ensures r == FirstCoins(creates)
  {
    r := map[];
    for i := 0 to |creates|
      invariant r == FirstCoins(creates[..i])
    {
      FirstCoinsStep(creates, i);
      if creates[i].outpoint !in r {
        r := r[creates[i].outpoint := creates[i].coin];
      }
    }
    assert creates[..|creates|] == creates;
  }

  method InsertClaims(spends: seq<Spend>) returns (r: map<OutPoint, Claim>)
    ensures r == FirstClaims(spends)
  {
    r := map[];
    for i := 0 to |spends|
      invariant r == FirstClaims(spends[..i])
    {
      FirstClaimsStep(spends, i);
      if spends[i].outpoint !in r {
        r := r[spends[i].outpoint := Claim(spends[i].source, spends[i].kind, spends[i].vin)];
      }
    }
    assert spends[..|spends|] == spends;
  }

  method PendingFee(rows: Outputs, m: Mempool, x: Hash) returns (fee: int)
    ensures fee == AtLeastZero(PendingGap(rows, m, x))
  {
    var confirmed := SumOf(TakenConfirmed(rows, m, x));
    var pending := SumOf(TakenPending(m, x));
    var made := SumOf(MadePending(m, x));
    fee := AtLeastZero(confirmed + pending - made);
  }

  method SetPendingFees(rows: Outputs, m: Mempool) returns (r: Mempool)
    ensures r == WithPendingFees(rows, m)
  {
    var txs := m.txs;
    var todo := m.txs.Keys;
    while todo != {}
      invariant todo <= m.txs.Keys && txs.Keys == m.txs.Keys
      invariant forall x | x in todo :: txs[x] == m.txs[x]
      invariant forall x | x in m.txs && x !in todo :: txs[x] == m.txs[x].(fee := AtLeastZero(PendingGap(rows, m, x)))
      decreases |todo|
    {
      var x :| x in todo;
      var fee := PendingFee(rows, m, x);
      txs := txs[x := m.txs[x].(fee := fee)];
      todo := todo - {x};
    }
    FeesComplete(rows, m, txs);
    r := m.(txs := txs);
  }

  lemma FeesComplete(rows: Outputs, m: Mempool, txs: map<Hash, PendingTx>)
    requires txs.Keys == m.txs.Keys
    requires forall x | x in m.txs :: txs[x] == m.txs[x].(fee := AtLeastZero(PendingGap(rows, m, x)))
    ensures m.(txs := txs) == WithPendingFees(rows, m)
  {
    assert txs == WithPendingFees(rows, m).txs;
  }

  // ----- Listing rows

  /** `list` names every row of `m` once. */
  ghost predicate Enumerates(list: seq<(OutPoint, Coin)>, m: map<OutPoint, Coin>) {
    && |list| == |m|
    && (forall i | 0 <= i < |list| :: list[i].0 in m && m[list[i].0] == list[i].1)
    && (forall i, j :: !Repeats(list, i, j))
  }

  predicate Repeats(list: seq<(OutPoint, Coin)>, i: nat, j: nat) {
    i < j < |list| && list[i].0 == list[j].0
  }

  ghost function ListWorth(list: seq<(OutPoint, Coin)>): int {
    if list == [] then 0 else ListWorth(list[..|list| - 1]) + list[|list| - 1].1.value
  }

  lemma EnumerateMore(list: seq<(OutPoint, Coin)>, done: map<OutPoint, Coin>, o: OutPoint, c: Coin)
    requires Enumerates(list, done) && ListWorth(list) == Sum(Values(done)) && o !in done
    ensures Enumerates(list + [(o, c)], done[o := c]) && ListWorth(list + [(o, c)]) == Sum(Values(done[o := c]))
  {
    var more := list + [(o, c)];
    assert more[..|list|] == list;
    forall i, j
      ensures !Repeats(more, i, j)
    {
      assert !Repeats(list, i, j);
    }
    ValuesInsert(done, o, c);
    SumInsert(Values(done), o, c.value);
  }

  lemma ValuesInsert(done: map<OutPoint, Coin>, o: OutPoint, c: Coin)
    requires o !in done
    ensures Values(done[o := c]) == Values(done)[o := c.value] && o !in Values(done)
  {
  }

  ghost predicate Listed(list: seq<(OutPoint, Coin)>, m: map<OutPoint, Coin>) {
    Enumerates(list, m) && ListWorth(list) == Sum(Values(m))
  }

  function Except(m: map<OutPoint, Coin>, todo: set<OutPoint>): map<OutPoint, Coin> {
    map o | o in m && o !in todo :: m[o]
  }

  lemma ListMore(list: seq<(OutPoint, Coin)>, m: map<OutPoint, Coin>, todo: set<OutPoint>, o: OutPoint)
    requires o in todo && o in m && Listed(list, Except(m, todo))
    ensures Listed(list + [(o, m[o])], Except(m, todo - {o}))
  {
    assert Except(m, todo - {o}) == Except(m, todo)[o := m[o]];
    EnumerateMore(list, Except(m, todo), o, m[o]);
  }

  lemma ListNothing(m: map<OutPoint, Coin>)
    ensures Listed([], Except(m, m.Keys)) && Except(m, {}) == m
  {
  }

  method ListRows(m: map<OutPoint, Coin>) returns (list: seq<(OutPoint, Coin)>)
    ensures Listed(list, m)
  {
    list := [];
    var todo := m.Keys;
    ListNothing(m);
    while todo != {}
      invariant todo <= m.Keys && Listed(list, Except(m, todo))
      decreases |todo|
    {
      var o :| o in todo;
      ListMore(list, m, todo, o);
      list, todo := list + [(o, m[o])], todo - {o};
    }
  }

  /** The six tables and the sync_state row, with every committed state of the confirmed side on record. */
  class Store {
    var blocks: map<nat, BlockRow>
    var txs: map<Hash, TxRow>
    var outputs: Outputs
    var tip: Option<Tip>
    var pendingTxs: map<Hash, PendingTx>
    var pendingOutputs: map<OutPoint, Coin>
    var claims: map<OutPoint, Claim>
    ghost var commits: seq<Confirmed>
    ghost var log: seq<Change>

    /** The log explains every commit, and the tables are the last of them. */
    ghost predicate Valid()
      reads this`blocks, this`txs, this`outputs, this`tip, this`commits, this`log
    {
      Recorded(commits, log) && Tables() == StateAfter(commits, |commits|)
    }

    function Tables(): Confirmed
      reads this`blocks, this`txs, this`outputs, this`tip
    {
      Confirmed(blocks, txs, outputs, tip)
    }

    function Contents(): State
      reads this
    {
      State(Tables(), Mempool(pendingTxs, pendingOutputs, claims))
    }

    constructor ()
      ensures Valid() && Contents() == BLANK && commits == [] && log == []
    {
      blocks, txs, outputs, tip := map[], map[], map[], None;
      pendingTxs, pendingOutputs, claims := map[], map[], map[];
      commits, log := [], [];
    }

    method Commit(next: Confirmed, ghost change: Change)
      requires Valid() && Changes(Tables(), change, next)
      modifies this`blocks, this`txs, this`outputs, this`tip, this`commits, this`log
      ensures Valid() && Tables() == next && commits == old(commits) + [next] && log == old(log) + [change]
    {
      RecordedMore(commits, log, change, next);
      blocks, txs, outputs, tip := next.blocks, next.txs, next.outputs, next.tip;
      commits, log := commits + [next], log + [change];
    }

    /** Drops the snapshot rows the block confirms. */
    method ClearMempool(b: Block)
      modifies this`pendingTxs, this`pendingOutputs, this`claims
      ensures Contents().m == Cleared(old(Contents().m), b)
    {
      pendingTxs := pendingTxs - Txids(b.txs);
      pendingOutputs := pendingOutputs - Created(b.creates);
      claims := claims - Consumed(b.spends);
    }

    /** Commits the tables a block leaves behind, and drops from the snapshot what it confirms. */
    method Land(b: Block, next: Confirmed, ghost marks: map<OutPoint, Mark>)
      requires Valid() && Changes(Tables(), Wrote(Write(b, marks)), next)
      modifies this
      ensures Valid() && Tables() == next && Contents() == State(next, Cleared(old(Contents().m), b))
      ensures commits == old(commits) + [next] && log == old(log) + [Wrote(Write(b, marks))]
    {
      ClearMempool(b);
      Commit(next, Wrote(Write(b, marks)));
    }

    /** Writes one block, or nothing at all. Reports how many of its spends matched no row. */
    method Apply(b: Block) returns (unknown: Option<int>, ghost marks: map<OutPoint, Mark>)
      requires Valid() && UniqueCoinbase(outputs)
      modifies this
      ensures Valid()
      ensures unknown.Some? <==> Accepts(old(Tables()), b)
      ensures unknown.Some? ==> Picks(b.height, b.spends, marks)
      ensures unknown.Some? ==> Contents() == AppliedState(old(Contents()), Write(b, marks))
      ensures unknown.Some? ==> unknown.value == |b.spends| - |Consumed(b.spends) * WithCreates(old(Tables()), b).Keys|
      ensures unknown.Some? ==> commits == old(commits) + [Tables()] && log == old(log) + [Wrote(Write(b, marks))]
      ensures unknown.None? ==> Contents() == old(Contents()) && commits == old(commits) && log == old(log)
    {
      var next, applied;
      next, applied, marks := WriteBlock(Tables(), b);
      if next.None? {
        return None, marks;
      }
      Land(b, next.value, marks);
      unknown := Some(|b.spends| - applied);
    }

    /** Undoes every block above `height`. */
    method Rollback(height: nat)
      requires Valid()
      modifies this
      ensures Valid()
      ensures Contents() == RolledBackState(old(Contents()), height)
      ensures commits == old(commits) + [Tables()] && log == old(log) + [Undid(height)]
    {
      var next := UndoBlocks(Tables(), height);
      Commit(next, Undid(height));
    }

    /** Swaps the snapshot whole. A repeated txid fails and changes nothing. */
    method ReplaceMempool(pool: Pool, now: int) returns (ok: bool)
      modifies this`pendingTxs, this`pendingOutputs, this`claims
      ensures ok <==> Replaced(old(Contents()), pool, now).Some?
      ensures ok ==> Replaced(old(Contents()), pool, now) == Some(Contents())
      ensures !ok ==> Contents() == old(Contents())
    {
      var fits, newTxs := InsertPending(pendingTxs, pool.txs, now);
      if !fits {
        return false;
      }
      var coins := InsertPendingCoins(pool.creates);
      var taken := InsertClaims(pool.spends);
      var m := SetPendingFees(outputs, Mempool(newTxs, coins, taken));
      pendingTxs, pendingOutputs, claims := m.txs, m.outputs, m.spends;
      ok := true;
    }

    method CurrentTip() returns (r: Option<Tip>)
      ensures r == tip
    {
      r := tip;
    }

    method HashAt(height: nat) returns (r: Option<Hash>)
      ensures r == if height in blocks then Some(blocks[height].hash) else None
    {
      r := if height in blocks then Some(blocks[height].hash) else None;
    }

    /** The utxo route: confirmed coins the snapshot leaves alone, then the snapshot's own unclaimed coins. */
    method AddressUtxos(mine: Owner) returns (settled: seq<(OutPoint, Coin)>, pending: seq<(OutPoint, Coin)>)
      ensures Enumerates(settled, Settled(Contents(), mine)) && Enumerates(pending, Pending(Contents(), mine))
      ensures Sound(Tables()) && Consistent(Contents()) ==>
        ListWorth(settled) + ListWorth(pending) == ReportedBalance(Contents(), mine)
      ensures Consistent(Contents()) ==>
        forall i, j | 0 <= i < |settled| && 0 <= j < |pending| :: settled[i].0 != pending[j].0
    {
      settled := ListRows(Settled(Contents(), mine));
      pending := ListRows(Pending(Contents(), mine));
      if Consistent(Contents()) {
        ListedOnce(Contents(), mine);
        if Sound(Tables()) {
          BalanceAgrees(Contents(), mine);
        }
      }
    }

    /** The balance an address page shows: chain sums plus mempool sums. */
    method AddressBalance(mine: Owner) returns (balance: int)
      ensures balance == ReportedBalance(Contents(), mine)
      ensures Sound(Tables()) && Consistent(Contents()) ==> balance == Sum(Values(View(Contents(), mine)))
    {
      var s := Contents();
      var funded := SumOf(Funded(s.c.outputs, mine));
      var spent := SumOf(SpentRows(s.c.outputs, mine));
      var pendingFunded := SumOf(PendingFunded(s.m, mine));
      var claimed := SumOf(ClaimedRows(s.c.outputs, s.m, mine));
      var chained := SumOf(ClaimedPending(s.m, mine));
      balance := funded - spent + pendingFunded - (claimed + chained);
      if Sound(Tables()) && Consistent(Contents()) {
        BalanceAgrees(s, mine);
      }
    }
  }
}
