/**
 The spent-annotated outputs table against a plain UTXO set, and where every sat of a block goes.
 */
module Coins {
  import opened Rows
  import opened Sums
  import opened Ledger
  import opened Undo

  type Outputs = map<OutPoint, OutputRow>

  /** The coins no row marks as spent. */
  function Utxo(rows: Outputs): map<OutPoint, Coin> {
    map o | o in rows && rows[o].spent == None :: rows[o].coin
  }

  /** The coins a list creates; the first row to name an outpoint wins. */
  function FirstCoins(creates: seq<Output>): (r: map<OutPoint, Coin>)
    ensures r.Keys == Created(creates)
  {
    if creates == [] then map[] else
      var n := |creates| - 1;
      assert creates == creates[..n] + [creates[n]];
      map[creates[n].outpoint := creates[n].coin] + FirstCoins(creates[..n])
  }

  lemma {:induction false} FirstRowsCarryFirstCoins(height: nat, hash: Hash, creates: seq<Output>, o: OutPoint)
    requires o in Created(creates)
    ensures FirstOutputs(height, hash, creates)[o].coin == FirstCoins(creates)[o]
    decreases |creates|
  {
    var n := |creates| - 1;
    assert creates == creates[..n] + [creates[n]];
    if o in Created(creates[..n]) {
      FirstRowsCarryFirstCoins(height, hash, creates[..n], o);
    }
  }

  /** The coin stored for an outpoint is that of the first row that carries it. */
  lemma {:induction false} FirstCoinIs(creates: seq<Output>, i: nat)
    requires i < |creates| && forall j | 0 <= j < i :: creates[j].outpoint != creates[i].outpoint
    ensures creates[i].outpoint in FirstCoins(creates) && FirstCoins(creates)[creates[i].outpoint] == creates[i].coin
    decreases |creates|
  {
    var n := |creates| - 1;
    if i == n {
      assert creates[n].outpoint !in Created(creates[..n]);
    } else {
      FirstCoinIs(creates[..n], i);
    }
  }

  // ----- The outputs table one block leaves, row by row

  /** At `o`: the first writer's coin and height, and the latest mark. */
  ghost predicate AfterAt(held: Outputs, b: Block, marks: map<OutPoint, Mark>, rows: Outputs, o: OutPoint) {
    && (o in rows <==> o in held || o in Created(b.creates))
    && (o in held ==> rows[o].coin == held[o].coin && rows[o].height == held[o].height)
    && (o in rows && o !in held ==> rows[o].coin == FirstCoins(b.creates)[o] && rows[o].height == b.height)
    && (o in Consumed(b.spends) <==> o in marks)
    && (o in rows && o in marks ==> rows[o].spent == Some(marks[o]) && marks[o].height == b.height)
    && (o in rows && o !in marks ==> rows[o].spent == if o in held then held[o].spent else None)
  }

  ghost predicate After(held: Outputs, b: Block, marks: map<OutPoint, Mark>, rows: Outputs) {
    forall o :: AfterAt(held, b, marks, rows, o)
  }

  lemma AppliedRowAt(c: Confirmed, w: Write, o: OutPoint)
    requires Picks(w.block.height, w.block.spends, w.marks)
    ensures AfterAt(c.outputs, w.block, w.marks, Applied(c, w.block, w.marks).outputs, o)
  {
    var b := w.block;
    var before := WithCreates(c, b);
    if o in Created(b.creates) {
      FirstRowsCarryFirstCoins(b.height, b.hash, b.creates, o);
    }
    assert Applied(c, b, w.marks).outputs == Marked(before, w.marks);
  }

  lemma AppliedRows(c: Confirmed, w: Write)
    requires Picks(w.block.height, w.block.spends, w.marks)
    ensures After(c.outputs, w.block, w.marks, Applied(c, w.block, w.marks).outputs)
  {
    forall o
      ensures AfterAt(c.outputs, w.block, w.marks, Applied(c, w.block, w.marks).outputs, o)
    {
      AppliedRowAt(c, w, o);
    }
  }

  // ----- Refinement

  /** A UTXO set with no history: add what the block creates, drop what it spends. */
  function UtxoStep(u: map<OutPoint, Coin>, b: Block): map<OutPoint, Coin> {
    (u + FirstCoins(b.creates)) - Consumed(b.spends)
  }

  /** No coin the block creates and keeps is already held spent, or held as a different coin. */
  ghost predicate CreatesBenign(held: Outputs, b: Block) {
    forall o :: BenignAt(held, b, o)
  }

  ghost predicate BenignAt(held: Outputs, b: Block, o: OutPoint) {
    o in Created(b.creates) && o !in Consumed(b.spends) && o in held ==>
      held[o].spent == None && held[o].coin == FirstCoins(b.creates)[o]
  }

  lemma UtxoStepAt(held: Outputs, b: Block, marks: map<OutPoint, Mark>, rows: Outputs, o: OutPoint)
    requires AfterAt(held, b, marks, rows, o)
    ensures SameAt(Utxo(rows), UtxoStep(Utxo(held), b), o) <==> BenignAt(held, b, o)
  {
  }

  lemma RowsRefineUtxo(held: Outputs, b: Block, marks: map<OutPoint, Mark>, rows: Outputs)
    requires After(held, b, marks, rows)
    ensures Utxo(rows) == UtxoStep(Utxo(held), b) <==> CreatesBenign(held, b)
  {
    var have, want := Utxo(rows), UtxoStep(Utxo(held), b);
    SameEverywhere(have, want);
    forall o
      ensures SameAt(have, want, o) <==> BenignAt(held, b, o)
    {
      UtxoStepAt(held, b, marks, rows, o);
    }
  }

  /** One block moves the unmarked rows as the plain set moves, exactly when its creates are benign. */
  lemma TableRefinesUtxoStep(c: Confirmed, w: Write)
    requires Allowed(c, w)
    ensures Utxo(Applied(c, w.block, w.marks).outputs) == UtxoStep(Utxo(c.outputs), w.block)
       <==> CreatesBenign(c.outputs, w.block)
  {
    AppliedRows(c, w);
    RowsRefineUtxo(c.outputs, w.block, w.marks, Applied(c, w.block, w.marks).outputs);
  }

  /** The plain set after the first `k` blocks. */
  ghost function UtxoFold(u: map<OutPoint, Coin>, writes: seq<Write>, k: nat): map<OutPoint, Coin>
    requires k <= |writes|
  {
    if k == 0 then u else UtxoStep(UtxoFold(u, writes, k - 1), writes[k - 1].block)
  }

  /** `states` are the tables before the first block and after each of them, every block accepted. */
  ghost predicate Accepted(states: seq<Confirmed>, writes: seq<Write>) {
    |states| == |writes| + 1 && forall k :: AcceptedAt(states, writes, k)
  }

  ghost predicate AcceptedAt(states: seq<Confirmed>, writes: seq<Write>, k: nat) {
    k < |writes| && k + 1 < |states| ==>
      Allowed(states[k], writes[k]) && states[k + 1] == Applied(states[k], writes[k].block, writes[k].marks)
  }

  /** After `k` blocks the unmarked rows are the plain set. */
  ghost predicate AgreesAfter(states: seq<Confirmed>, writes: seq<Write>, k: nat) {
    k < |states| && k <= |writes| ==> Utxo(states[k].outputs) == UtxoFold(Utxo(states[0].outputs), writes, k)
  }

  /** The creates of block `k` are benign where they land. */
  ghost predicate BenignAfter(states: seq<Confirmed>, writes: seq<Write>, k: nat) {
    k < |states| && k < |writes| ==> CreatesBenign(states[k].outputs, writes[k].block)
  }

  lemma AgreesNext(states: seq<Confirmed>, writes: seq<Write>, k: nat, next: nat)
    requires Accepted(states, writes) && k < |writes| && next == k + 1 && AgreesAfter(states, writes, k)
    ensures AgreesAfter(states, writes, next) <==> BenignAfter(states, writes, k)
  {
    assert AcceptedAt(states, writes, k);
    TableRefinesUtxoStep(states[k], writes[k]);
  }

  lemma {:induction false} BenignAgrees(states: seq<Confirmed>, writes: seq<Write>, n: nat)
    requires Accepted(states, writes) && n <= |writes| && forall k: nat | k < n :: BenignAfter(states, writes, k)
    ensures AgreesAfter(states, writes, n)
    decreases n
  {
    if n == 0 {
    } else {
      BenignAgrees(states, writes, n - 1);
      assert BenignAfter(states, writes, n - 1);
      AgreesNext(states, writes, n - 1, n);
    }
  }

  /**
   The unmarked rows follow the plain UTXO set through every block of an accepted run if and only if the
   creates of every block are benign where they land.
   */
  lemma TableRefinesUtxoSet(states: seq<Confirmed>, writes: seq<Write>, n: nat)
    requires Accepted(states, writes) && n <= |writes|
    ensures (forall k: nat | k <= n :: AgreesAfter(states, writes, k))
       <==> (forall k: nat | k < n :: BenignAfter(states, writes, k))
  {
    if forall k: nat | k < n :: BenignAfter(states, writes, k) {
      forall k: nat | k <= n
        ensures AgreesAfter(states, writes, k)
      {
        BenignAgrees(states, writes, k);
      }
    }
    if forall k: nat | k <= n :: AgreesAfter(states, writes, k) {
      forall k: nat | k < n
        ensures BenignAfter(states, writes, k)
      {
        assert AgreesAfter(states, writes, k) && AgreesAfter(states, writes, k + 1);
        AgreesNext(states, writes, k, k + 1);
      }
    }
  }

  // ----- Value conservation

  function Values(u: map<OutPoint, Coin>): map<OutPoint, int> {
    map o | o in u :: u[o].value
  }

  ghost function TotalUnspent(rows: Outputs): int {
    Sum(Values(Utxo(rows)))
  }

  function Available(held: Outputs, b: Block): map<OutPoint, Coin> {
    Utxo(held) + FirstCoins(b.creates)
  }

  /** Fresh creates, and every spent coin is held. */
  ghost predicate Orderly(held: Outputs, b: Block) {
    Created(b.creates) !! held.Keys && Consumed(b.spends) <= Available(held, b).Keys
  }

  function SpentValues(held: Outputs, b: Block): map<OutPoint, int> {
    Lost(Available(held, b), Consumed(b.spends))
  }

  function MadeValues(b: Block): map<OutPoint, int> {
    Values(FirstCoins(b.creates))
  }

  /** Which transaction took a coin, and which one made it; the rest have no transaction behind them. */
  function Takers(marks: map<OutPoint, Mark>): map<OutPoint, Hash> {
    map o | o in marks && marks[o].kind == SPEND_REGULAR :: marks[o].source
  }

  function Makers(b: Block): map<OutPoint, Hash> {
    map o | o in Created(b.creates) && o.kind == KIND_REGULAR :: o.source
  }

  function Lost(all: map<OutPoint, Coin>, gone: set<OutPoint>): map<OutPoint, int> {
    map o | o in all && o in gone :: all[o].value
  }

  lemma ValuesUnion(u: map<OutPoint, Coin>, made: map<OutPoint, Coin>)
    requires u.Keys !! made.Keys
    ensures Values(u + made) == Values(u) + Values(made)
  {
  }

  lemma ValuesSplit(all: map<OutPoint, Coin>, gone: set<OutPoint>)
    ensures Values(all) == Values(all - gone) + Lost(all, gone)
    ensures Values(all - gone).Keys !! Lost(all, gone).Keys
  {
  }

  lemma TotalSplits(u: map<OutPoint, Coin>, made: map<OutPoint, Coin>, gone: set<OutPoint>)
    requires u.Keys !! made.Keys
    ensures Sum(Values((u + made) - gone)) == Sum(Values(u)) + Sum(Values(made)) - Sum(Lost(u + made, gone))
  {
    ValuesUnion(u, made);
    ValuesSplit(u + made, gone);
    SumUnion(Values(u), Values(made));
    SumUnion(Values((u + made) - gone), Lost(u + made, gone));
  }

  lemma TotalMoves(held: Outputs, b: Block, marks: map<OutPoint, Mark>, rows: Outputs)
    requires After(held, b, marks, rows) && Orderly(held, b)
    ensures TotalUnspent(rows) == TotalUnspent(held) + Sum(MadeValues(b)) - Sum(SpentValues(held, b))
  {
    assert CreatesBenign(held, b) by {
      forall o
        ensures BenignAt(held, b, o)
      {
      }
    }
    RowsRefineUtxo(held, b, marks, rows);
    TotalSplits(Utxo(held), FirstCoins(b.creates), Consumed(b.spends));
  }

  /** Every row and every mark of the table is below `height`. */
  ghost predicate Below(held: Outputs, height: nat) {
    forall o | o in held :: held[o].height < height && (held[o].spent.Some? ==> held[o].spent.value.height < height)
  }

  lemma InputsOfTaker(held: Outputs, b: Block, marks: map<OutPoint, Mark>, rows: Outputs, txid: Hash)
    requires After(held, b, marks, rows) && Orderly(held, b) && Below(held, b.height)
    ensures InputValues(rows, txid, b.height) == Group(SpentValues(held, b), Takers(marks), txid)
  {
    var ins, group := InputValues(rows, txid, b.height), Group(SpentValues(held, b), Takers(marks), txid);
    forall o
      ensures o in ins <==> o in group
      ensures o in ins ==> ins[o] == group[o]
    {
      assert AfterAt(held, b, marks, rows, o);
    }
  }

  lemma OutputsOfMaker(held: Outputs, b: Block, marks: map<OutPoint, Mark>, rows: Outputs, txid: Hash)
    requires After(held, b, marks, rows) && Orderly(held, b) && Below(held, b.height)
    ensures OutputValues(rows, txid, b.height) == Group(MadeValues(b), Makers(b), txid)
  {
    var outs, group := OutputValues(rows, txid, b.height), Group(MadeValues(b), Makers(b), txid);
    forall o
      ensures o in outs <==> o in group
      ensures o in outs ==> outs[o] == group[o]
    {
      assert AfterAt(held, b, marks, rows, o);
    }
  }

  /** What transaction `x` of the block takes, less what it makes. */
  ghost function Gap(held: Outputs, b: Block, marks: map<OutPoint, Mark>, x: Hash): int {
    Sum(Group(SpentValues(held, b), Takers(marks), x)) - Sum(Group(MadeValues(b), Makers(b), x))
  }

  /** Each transaction takes at least what it makes, so no recorded fee is floored. */
  ghost predicate Covered(held: Outputs, b: Block, marks: map<OutPoint, Mark>) {
    forall x | x in Txids(b.txs) :: Gap(held, b, marks, x) >= 0
  }

  ghost function Gaps(held: Outputs, b: Block, marks: map<OutPoint, Mark>): map<Hash, int> {
    map x | x in Txids(b.txs) :: Gap(held, b, marks, x)
  }

  ghost function TakenSums(held: Outputs, b: Block, marks: map<OutPoint, Mark>): map<Hash, int> {
    GroupSums(SpentValues(held, b), Takers(marks), Txids(b.txs))
  }

  ghost function MadeSums(b: Block): map<Hash, int> {
    GroupSums(MadeValues(b), Makers(b), Txids(b.txs))
  }

  lemma GapsByGroup(held: Outputs, b: Block, marks: map<OutPoint, Mark>)
    ensures TakenSums(held, b, marks).Keys == MadeSums(b).Keys
    ensures Gaps(held, b, marks) == Differences(TakenSums(held, b, marks), MadeSums(b))
  {
    var taken, made := TakenSums(held, b, marks), MadeSums(b);
    assert taken.Keys == made.Keys;
    var gaps, want := Gaps(held, b, marks), Differences(taken, made);
    SameEverywhere(gaps, want);
    forall x
      ensures SameAt(gaps, want, x)
    {
    }
  }

  lemma GapsAddUp(held: Outputs, b: Block, marks: map<OutPoint, Mark>)
    ensures Sum(Gaps(held, b, marks))
         == Sum(Grouped(SpentValues(held, b), Takers(marks), Txids(b.txs)))
            - Sum(Grouped(MadeValues(b), Makers(b), Txids(b.txs)))
  {
    var ids := Txids(b.txs);
    GapsByGroup(held, b, marks);
    SumByGroup(SpentValues(held, b), Takers(marks), ids);
    SumByGroup(MadeValues(b), Makers(b), ids);
    SumMinus(TakenSums(held, b, marks), MadeSums(b));
  }

  /** Flooring every term at zero lifts a sum, unless no term is negative. */
  lemma SumFloored<K>(gaps: map<K, int>, fees: map<K, int>)
    requires gaps.Keys == fees.Keys && forall x | x in gaps :: fees[x] == AtLeastZero(gaps[x])
    ensures Sum(fees) >= Sum(gaps)
    ensures Sum(fees) == Sum(gaps) <==> forall x | x in gaps :: gaps[x] >= 0
  {
    SumMonotone(gaps, fees);
    if forall x | x in gaps :: gaps[x] >= 0 {
      assert gaps == fees;
    } else {
      var x :| x in gaps && gaps[x] < 0;
      assert gaps[x] != fees[x];
    }
  }

  lemma FeeIsGap(held: Outputs, b: Block, marks: map<OutPoint, Mark>, rows: Outputs, x: Hash)
    requires After(held, b, marks, rows) && Orderly(held, b) && Below(held, b.height)
    ensures Fee(rows, x, b.height) == AtLeastZero(Gap(held, b, marks, x))
  {
    InputsOfTaker(held, b, marks, rows, x);
    OutputsOfMaker(held, b, marks, rows, x);
  }

  lemma CoveredGaps(held: Outputs, b: Block, marks: map<OutPoint, Mark>)
    ensures Covered(held, b, marks) <==> forall x | x in Gaps(held, b, marks) :: Gaps(held, b, marks)[x] >= 0
  {
    var gaps := Gaps(held, b, marks);
    assert forall x | x in Txids(b.txs) :: x in gaps && gaps[x] == Gap(held, b, marks, x);
  }

  /** Coins made and coins removed with no transaction of the block behind them. */
  function MadeOutside(b: Block): map<OutPoint, int> {
    map o | o in MadeValues(b) && !(o in Makers(b) && Makers(b)[o] in Txids(b.txs)) :: MadeValues(b)[o]
  }

  function TakenOutside(held: Outputs, b: Block, marks: map<OutPoint, Mark>): map<OutPoint, int> {
    map o | o in SpentValues(held, b) && !(o in Takers(marks) && Takers(marks)[o] in Txids(b.txs)) ::
      SpentValues(held, b)[o]
  }

  lemma GroupedOrNot<K, G>(m: map<K, int>, group: map<K, G>, groups: set<G>)
    ensures Sum(m)
      == Sum(Grouped(m, group, groups)) + Sum(map k | k in m && !(k in group && group[k] in groups) :: m[k])
  {
    var rest := map k | k in m && !(k in group && group[k] in groups) :: m[k];
    assert m == Grouped(m, group, groups) + rest;
    SumUnion(Grouped(m, group, groups), rest);
  }

  /** Whatever is recorded, the unspent total moves by what is made and taken outside, less the gaps. */
  lemma RowsConserveValue(held: Outputs, b: Block, marks: map<OutPoint, Mark>, rows: Outputs)
    requires After(held, b, marks, rows) && Orderly(held, b) && Below(held, b.height)
    ensures TotalUnspent(rows)
         == TotalUnspent(held) + Sum(MadeOutside(b)) - Sum(TakenOutside(held, b, marks)) - Sum(Gaps(held, b, marks))
  {
    TotalMoves(held, b, marks, rows);
    GapsAddUp(held, b, marks);
    GroupedOrNot(MadeValues(b), Makers(b), Txids(b.txs));
    GroupedOrNot(SpentValues(held, b), Takers(marks), Txids(b.txs));
  }

  /** The fees the txs table records for the transactions of `b`. */
  function RecordedFees(c: Confirmed, b: Block): map<Hash, int> {
    map x | x in Txids(b.txs) && x in c.txs :: c.txs[x].fee
  }

  lemma FeeRecorded(c: Confirmed, w: Write, x: Hash)
    requires x in Txids(w.block.txs) && x !in c.txs
    ensures var next := Applied(c, w.block, w.marks);
      x in next.txs && next.txs[x].fee == Fee(next.outputs, x, w.block.height)
  {
  }

  /** A transaction an earlier block listed keeps the row written then, whatever this block does with it. */
  lemma ListedRowStays(c: Confirmed, w: Write, x: Hash)
    requires Sound(c) && Allowed(c, w) && x in c.txs
    ensures var next := Applied(c, w.block, w.marks); x in next.txs && next.txs[x] == c.txs[x]
  {
    assert TxAnchored(c, x);
    assert (FirstTxs(w.block.height, w.block.txs) + c.txs)[x] == c.txs[x];
  }

  /** What will be on record for the transactions of the block: the fee an earlier listing left, or the floored gap. */
  ghost function FeesToRecord(c: Confirmed, w: Write): map<Hash, int> {
    map x | x in Txids(w.block.txs) ::
      if x in c.txs then c.txs[x].fee else AtLeastZero(Gap(c.outputs, w.block, w.marks, x))
  }

  lemma FeesRecorded(c: Confirmed, w: Write)
    requires Sound(c) && Allowed(c, w) && Orderly(c.outputs, w.block)
    ensures RecordedFees(Applied(c, w.block, w.marks), w.block) == FeesToRecord(c, w)
  {
    var next := Applied(c, w.block, w.marks);
    var have, want := RecordedFees(next, w.block), FeesToRecord(c, w);
    SameEverywhere(have, want);
    AppliedRows(c, w);
    SoundBelow(c);
    forall x
      ensures SameAt(have, want, x)
    {
      if x in c.txs {
        ListedRowStays(c, w, x);
      } else if x in Txids(w.block.txs) {
        FeeRecorded(c, w, x);
        FeeIsGap(c.outputs, w.block, w.marks, next.outputs, x);
      }
    }
  }

  lemma SoundBelow(c: Confirmed)
    requires Contiguous(c) && RowsAnchored(c)
    ensures Below(c.outputs, NextHeight(c))
  {
    forall o | o in c.outputs
      ensures c.outputs[o].height < NextHeight(c)
      ensures c.outputs[o].spent.Some? ==> c.outputs[o].spent.value.height < NextHeight(c)
    {
      assert OutputAnchored(c, o);
    }
  }

  /** For transactions new to the index, flooring is the only way the fees on record can miss the gaps. */
  lemma NewFeesAgainstGaps(c: Confirmed, w: Write)
    requires Txids(w.block.txs) !! c.txs.Keys
    ensures var fees, gaps := FeesToRecord(c, w), Gaps(c.outputs, w.block, w.marks);
      Sum(fees) >= Sum(gaps) && (Sum(fees) == Sum(gaps) <==> Covered(c.outputs, w.block, w.marks))
  {
    CoveredGaps(c.outputs, w.block, w.marks);
    SumFloored(Gaps(c.outputs, w.block, w.marks), FeesToRecord(c, w));
  }

  /**
   Value is conserved: what a block adds to the unspent total is what it makes outside transactions, less what it
   takes outside transactions, less the fees on record, off by exactly the fees on record less the gaps. For
   transactions new to the index the books balance exactly when each covers its outputs, and otherwise the fees
   overstate. One an earlier block listed keeps its old fee, so it is off by that fee less its gap.
   */
  lemma ValueConserved(c: Confirmed, w: Write)
    requires Sound(c) && Allowed(c, w) && Orderly(c.outputs, w.block)
    ensures var next := Applied(c, w.block, w.marks);
      var expected := TotalUnspent(c.outputs)
                      + Sum(MadeOutside(w.block)) - Sum(TakenOutside(c.outputs, w.block, w.marks))
                      - Sum(RecordedFees(next, w.block));
      && TotalUnspent(next.outputs) - expected == Sum(FeesToRecord(c, w)) - Sum(Gaps(c.outputs, w.block, w.marks))
      && (Txids(w.block.txs) !! c.txs.Keys ==>
            && TotalUnspent(next.outputs) >= expected
            && (TotalUnspent(next.outputs) == expected <==> Covered(c.outputs, w.block, w.marks)))
  {
    AppliedRows(c, w);
    SoundBelow(c);
    FeesRecorded(c, w);
    RowsConserveValue(c.outputs, w.block, w.marks, Applied(c, w.block, w.marks).outputs);
    if Txids(w.block.txs) !! c.txs.Keys {
      NewFeesAgainstGaps(c, w);
    }
  }

  /** What goes on record for a new transaction: what it takes less what it makes, and nothing when that falls short. */
  lemma FeeOnRecord(c: Confirmed, w: Write, x: Hash)
    requires Sound(c) && Allowed(c, w) && Orderly(c.outputs, w.block) && x in Txids(w.block.txs) && x !in c.txs
    ensures var gap, next := Gap(c.outputs, w.block, w.marks, x), Applied(c, w.block, w.marks);
      x in next.txs && (gap >= 0 ==> next.txs[x].fee == gap) && (gap < 0 ==> next.txs[x].fee == 0)
  {
    AppliedRows(c, w);
    SoundBelow(c);
    FeeRecorded(c, w, x);
    FeeIsGap(c.outputs, w.block, w.marks, Applied(c, w.block, w.marks).outputs, x);
  }
}
