/** Rollback has no undo log. This is when it inverts Apply, exactly. */
module Undo {
  import opened Rows
  import opened Ledger

  /** One committed Apply: the block and the spend marks its UPDATE picked. */
  datatype Write = Write(block: Block, marks: map<OutPoint, Mark>)

  /** One committed change of the confirmed tables. */
  datatype Change = Wrote(write: Write) | Undid(height: nat)

  ghost predicate Changes(c: Confirmed, change: Change, d: Confirmed) {
    match change
    case Wrote(w) =>
      Accepts(c, w.block) && Picks(w.block.height, w.block.spends, w.marks) && d == Applied(c, w.block, w.marks)
    case Undid(h) => d == RolledBack(c, h)
  }

  /** The tables after the first `n` commits. */
  function StateAfter(commits: seq<Confirmed>, n: nat): Confirmed
    requires n <= |commits|
  {
    if n == 0 then EMPTY else commits[n - 1]
  }

  /** `log` explains every commit of a store that started empty. */
  ghost predicate Recorded(commits: seq<Confirmed>, log: seq<Change>) {
    |commits| == |log| && forall k :: RecordedAt(commits, log, k)
  }

  ghost predicate RecordedAt(commits: seq<Confirmed>, log: seq<Change>, k: nat) {
    k < |log| && k < |commits| ==> Changes(StateAfter(commits, k), log[k], commits[k])
  }

  lemma RecordedMore(commits: seq<Confirmed>, log: seq<Change>, change: Change, d: Confirmed)
    requires Recorded(commits, log) && Changes(StateAfter(commits, |commits|), change, d)
    ensures Recorded(commits + [d], log + [change])
  {
    forall k: nat
      ensures RecordedAt(commits + [d], log + [change], k)
    {
      assert RecordedAt(commits, log, k);
    }
  }

  ghost predicate Allowed(c: Confirmed, w: Write) {
    Accepts(c, w.block) && Picks(w.block.height, w.block.spends, w.marks) && w.block.height == NextHeight(c)
  }

  /** The tables after a run of blocks, or None when one of them is refused. */
  ghost function ApplyAll(c: Confirmed, writes: seq<Write>): Option<Confirmed> {
    if writes == [] then Some(c) else
      var n := |writes| - 1;
      match ApplyAll(c, writes[..n])
      case None => None
      case Some(d) =>
        if Allowed(d, writes[n]) then Some(Applied(d, writes[n].block, writes[n].marks)) else None
  }

  /** Block `b` spends a row that already carries a spend mark. */
  ghost predicate Respends(c: Confirmed, b: Block) {
    exists o | o in Consumed(b.spends) :: o in c.outputs && c.outputs[o].spent.Some?
  }

  ghost function SpentIn(writes: seq<Write>): set<OutPoint> {
    set i, o | 0 <= i < |writes| && o in Consumed(writes[i].block.spends) :: o
  }

  lemma SpentInSnoc(writes: seq<Write>)
    requires writes != []
    ensures var n := |writes| - 1; SpentIn(writes) == SpentIn(writes[..n]) + Consumed(writes[n].block.spends)
  {
  }

  lemma {:induction false} ApplyAllSound(c: Confirmed, writes: seq<Write>)
    requires Sound(c) && ApplyAll(c, writes).Some?
    ensures Sound(ApplyAll(c, writes).value)
    ensures NextHeight(ApplyAll(c, writes).value) == NextHeight(c) + |writes|
    decreases |writes|
  {
    if writes == [] {
    } else {
      var n := |writes| - 1;
      ApplyAllSound(c, writes[..n]);
      AppliedSound(ApplyAll(c, writes[..n]).value, writes[n].block, writes[n].marks);
    }
  }

  // ----- What a run of blocks leaves of the rows that were there before it

  ghost predicate BlocksKept(c: Confirmed, d: Confirmed, h: nat) {
    && (forall k | k in c.blocks :: k in d.blocks && d.blocks[k] == c.blocks[k])
    && (forall k | k in d.blocks && k !in c.blocks :: k > h)
  }

  ghost predicate TxsKept(c: Confirmed, d: Confirmed, h: nat) {
    && (forall x | x in c.txs :: x in d.txs && d.txs[x] == c.txs[x])
    && (forall x | x in d.txs && x !in c.txs :: d.txs[x].height > h && d.txs[x].height in d.blocks)
  }

  ghost predicate OutputsKept(c: Confirmed, d: Confirmed, h: nat, spent: set<OutPoint>) {
    && (forall o | o in c.outputs :: o in d.outputs && d.outputs[o] == c.outputs[o].(spent := d.outputs[o].spent))
    && (forall o | o in c.outputs && o in spent :: d.outputs[o].spent.Some? && d.outputs[o].spent.value.height > h)
    && (forall o | o in c.outputs && o !in spent :: d.outputs[o] == c.outputs[o])
    && (forall o | o in d.outputs && o !in c.outputs :: d.outputs[o].height > h)
  }

  lemma BlocksKeptStep(c: Confirmed, d: Confirmed, h: nat, w: Write)
    requires BlocksKept(c, d, h) && Allowed(d, w) && NextHeight(d) > h
    ensures BlocksKept(c, Applied(d, w.block, w.marks), h)
  {
  }

  lemma TxsKeptStep(c: Confirmed, d: Confirmed, h: nat, w: Write)
    requires TxsKept(c, d, h) && BlocksKept(c, d, h) && Allowed(d, w) && NextHeight(d) > h
    requires forall x | x in c.txs :: c.txs[x].height <= h
    ensures TxsKept(c, Applied(d, w.block, w.marks), h)
  {
    var e := Applied(d, w.block, w.marks);
    forall x | x in c.txs
      ensures x in e.txs && e.txs[x] == c.txs[x]
    {
      assert (FirstTxs(w.block.height, w.block.txs) + d.txs)[x] == d.txs[x];
    }
    forall x | x in e.txs && x !in c.txs
      ensures e.txs[x].height > h && e.txs[x].height in e.blocks
    {
      assert x in FirstTxs(w.block.height, w.block.txs) + d.txs;
    }
  }

  lemma OutputsKeptStep(c: Confirmed, d: Confirmed, h: nat, spent: set<OutPoint>, w: Write)
    requires OutputsKept(c, d, h, spent) && Allowed(d, w) && NextHeight(d) > h
    ensures OutputsKept(c, Applied(d, w.block, w.marks), h, spent + Consumed(w.block.spends))
  {
    var e := Applied(d, w.block, w.marks);
    forall o | o in c.outputs
      ensures o in e.outputs && e.outputs[o] == c.outputs[o].(spent := e.outputs[o].spent)
      ensures o in spent + Consumed(w.block.spends) ==> e.outputs[o].spent.Some? && e.outputs[o].spent.value.height > h
      ensures o !in spent + Consumed(w.block.spends) ==> e.outputs[o] == c.outputs[o]
    {
      assert WithCreates(d, w.block)[o] == d.outputs[o];
    }
    forall o | o in e.outputs && o !in c.outputs
      ensures e.outputs[o].height > h
    {
      assert e.outputs[o].height == WithCreates(d, w.block)[o].height;
    }
  }

  lemma {:induction false} RunKeeps(c: Confirmed, writes: seq<Write>, h: nat)
    requires Sound(c) && NextHeight(c) == h + 1 && ApplyAll(c, writes).Some?
    ensures var d := ApplyAll(c, writes).value;
      BlocksKept(c, d, h) && TxsKept(c, d, h) && OutputsKept(c, d, h, SpentIn(writes))
    decreases |writes|
  {
    if writes == [] {
      assert SpentIn(writes) == {};
    } else {
      var n := |writes| - 1;
      var d := ApplyAll(c, writes[..n]).value;
      RunKeeps(c, writes[..n], h);
      ApplyAllSound(c, writes[..n]);
      RowsAtOrBelow(c, h);
      BlocksKeptStep(c, d, h, writes[n]);
      TxsKeptStep(c, d, h, writes[n]);
      OutputsKeptStep(c, d, h, SpentIn(writes[..n]), writes[n]);
      SpentInSnoc(writes);
    }
  }

  lemma RowsAtOrBelow(c: Confirmed, h: nat)
    requires Contiguous(c) && RowsAnchored(c) && NextHeight(c) == h + 1
    ensures forall o | o in c.outputs ::
      c.outputs[o].height <= h && (c.outputs[o].spent.Some? ==> c.outputs[o].spent.value.height <= h)
    ensures forall x | x in c.txs :: c.txs[x].height <= h
  {
    forall o | o in c.outputs
      ensures c.outputs[o].height <= h && (c.outputs[o].spent.Some? ==> c.outputs[o].spent.value.height <= h)
    {
      assert OutputAnchored(c, o);
    }
    forall x | x in c.txs
      ensures c.txs[x].height <= h
    {
      assert TxAnchored(c, x);
    }
  }

  lemma OutputsRestored(c: Confirmed, d: Confirmed, h: nat, spent: set<OutPoint>)
    requires Contiguous(c) && RowsAnchored(c) && NextHeight(c) == h + 1
    requires OutputsKept(c, d, h, spent)
    ensures RolledBack(d, h).outputs == c.outputs
       <==> forall o | o in spent && o in c.outputs :: c.outputs[o].spent == None
  {
    var back := RolledBack(d, h).outputs;
    RowsAtOrBelow(c, h);
    assert back.Keys == c.outputs.Keys;
    forall o | o in c.outputs
      ensures back[o] == c.outputs[o] <==> (o in spent ==> c.outputs[o].spent == None)
    {
      assert back[o] == Unspent(d.outputs[o], h);
      if o in spent {
        assert back[o] == c.outputs[o].(spent := None);
      }
    }
  }

  lemma OthersRestored(c: Confirmed, d: Confirmed, h: nat)
    requires Contiguous(c) && RowsAnchored(c) && NextHeight(c) == h + 1
    requires BlocksKept(c, d, h) && TxsKept(c, d, h)
    ensures var back := RolledBack(d, h);
      back.blocks == c.blocks && back.txs == c.txs && back.tip == c.tip
  {
    var back := RolledBack(d, h);
    assert back.blocks == c.blocks;
    RowsAtOrBelow(c, h);
    assert back.txs.Keys == c.txs.Keys;
  }

  /**
   Applying any blocks and rolling back to where they started restores every table and the tip
   if and only if none of those blocks spends a row that was already marked spent before them.
   Repeated transactions and spends of unknown outputs are allowed.
   */
  lemma RollbackInvertsApply(c: Confirmed, writes: seq<Write>, h: nat)
    requires Sound(c) && NextHeight(c) == h + 1 && ApplyAll(c, writes).Some?
    ensures RolledBack(ApplyAll(c, writes).value, h) == c
       <==> forall i | 0 <= i < |writes| :: !Respends(c, writes[i].block)
  {
    var d := ApplyAll(c, writes).value;
    var spent := SpentIn(writes);
    RunKeeps(c, writes, h);
    OthersRestored(c, d, h);
    OutputsRestored(c, d, h, spent);
    if forall i | 0 <= i < |writes| :: !Respends(c, writes[i].block) {
      forall o | o in spent && o in c.outputs
        ensures c.outputs[o].spent == None
      {
        var i :| 0 <= i < |writes| && o in Consumed(writes[i].block.spends);
        assert !Respends(c, writes[i].block);
      }
    } else {
      var i :| 0 <= i < |writes| && Respends(c, writes[i].block);
      var o :| o in Consumed(writes[i].block.spends) && o in c.outputs && c.outputs[o].spent.Some?;
      assert o in spent;
    }
  }

  /** A marked row stays in the table and stays marked under every later block. */
  lemma MarksStay(c: Confirmed, writes: seq<Write>, h: nat, o: OutPoint)
    requires Sound(c) && NextHeight(c) == h + 1 && ApplyAll(c, writes).Some?
    requires o in c.outputs && c.outputs[o].spent.Some?
    ensures o in ApplyAll(c, writes).value.outputs && ApplyAll(c, writes).value.outputs[o].spent.Some?
  {
    RunKeeps(c, writes, h);
    if o !in SpentIn(writes) {
      assert ApplyAll(c, writes).value.outputs[o] == c.outputs[o];
    }
  }
}
