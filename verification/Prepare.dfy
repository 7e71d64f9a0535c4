/** What the node sends, and the rows one block or one mempool listing turns into. */
module Prepare {
  import opened Rows

  datatype NodeOutput = NodeOutput(address: Address, content: string)

  datatype Transaction = Transaction(inputs: seq<OutPoint>, outputs: seq<NodeOutput>)

  datatype Header = Header(merkleRoot: Hash, prevSideHash: Option<Hash>, prevMainHash: Hash)

  datatype TxInfo = TxInfo(txid: Hash, size: nat, raw: seq<byte>, skipped: bool)

  /** A transaction beside the identity the node computed for it. */
  datatype Entry = Entry(info: TxInfo, tx: Transaction)

  datatype Placed = Placed(outpoint: OutPoint, output: NodeOutput)

  datatype BundleSpend = BundleSpend(outpoint: OutPoint, m6id: Hash)

  datatype NodeBlock = NodeBlock(
    header: Header,
    coinbase: seq<NodeOutput>,
    keyedByTxid: bool,
    transactions: seq<Transaction>)

  datatype BlockIndex = BlockIndex(
    txs: seq<TxInfo>,
    deposits: seq<Placed>,
    bundleSpends: seq<BundleSpend>,
    marketCreates: seq<Placed>,
    marketDeletes: seq<OutPoint>)

  datatype Content = Content(value: int, contentType: string)

  /** The chain-specific payload decoder, and the foreign digest that names a coinbase. */
  datatype Codec = Codec(decode: string -> Option<Content>, coinbaseTxid: Header -> Hash)

  /** A position as a u32: itself as long as it fits. */
  function Wrap32(i: nat): (r: uint32)
    ensures i < 0x1_0000_0000 ==> r == i
  {
    i % 0x1_0000_0000
  }

  function CoinbaseSource(b: NodeBlock, codec: Codec): Hash {
    if b.keyedByTxid then codec.coinbaseTxid(b.header) else b.header.merkleRoot
  }

  // ----- Rows of one output, one transaction, a list of transactions

  predicate Decodable(o: NodeOutput, codec: Codec) {
    codec.decode(o.content).Some?
  }

  predicate AllDecodable(outputs: seq<NodeOutput>, codec: Codec) {
    forall i | 0 <= i < |outputs| :: Decodable(outputs[i], codec)
  }

  function CoinOf(o: NodeOutput, codec: Codec): Coin {
    match codec.decode(o.content)
    case Some(c) => Coin(o.address, c.value, o.content, c.contentType)
    case None => Coin(o.address, 0, o.content, "")
  }

  function NewOutput(outpoint: OutPoint, o: NodeOutput, codec: Codec): Option<Output> {
    if Decodable(o, codec) then Some(Output(outpoint, CoinOf(o, codec), true)) else None
  }

  /** The outputs of one list, numbered in order under one source. */
  function Numbered(kind: byte, source: Hash, outputs: seq<NodeOutput>, codec: Codec): (r: seq<Output>)
    ensures |r| == |outputs|
  {
    seq(|outputs|, i requires 0 <= i < |outputs| =>
      Output(OutPoint(kind, source, Wrap32(i)), CoinOf(outputs[i], codec), true))
  }

  function TxCreates(e: Entry, codec: Codec): seq<Output> {
    Numbered(KIND_REGULAR, e.info.txid, e.tx.outputs, codec)
  }

  function TxSpends(e: Entry): seq<Spend> {
    seq(|e.tx.inputs|, i requires 0 <= i < |e.tx.inputs| =>
      Spend(e.tx.inputs[i], e.info.txid, SPEND_REGULAR, Wrap32(i)))
  }

  function AllCreates(es: seq<Entry>, codec: Codec): seq<Output> {
    if es == [] then [] else AllCreates(es[..|es| - 1], codec) + TxCreates(es[|es| - 1], codec)
  }

  function AllSpends(es: seq<Entry>): seq<Spend> {
    if es == [] then [] else AllSpends(es[..|es| - 1]) + TxSpends(es[|es| - 1])
  }

  predicate EntriesDecodable(es: seq<Entry>, codec: Codec) {
    forall i | 0 <= i < |es| :: AllDecodable(es[i].tx.outputs, codec)
  }

  function TxRows(infos: seq<TxInfo>): seq<Tx> {
    seq(|infos|, i requires 0 <= i < |infos| => Tx(infos[i].txid, i, infos[i].size, infos[i].raw))
  }

  function Infos(es: seq<Entry>): (r: seq<TxInfo>)
    ensures |r| == |es|
  {
    seq(|es|, i requires 0 <= i < |es| => es[i].info)
  }

  // ----- Rows of one block

  /** The transactions of the body that took effect: a skipped trade stays listed but moves nothing. */
  function Executed(txs: seq<Transaction>, infos: seq<TxInfo>): seq<Entry>
    requires |txs| == |infos|
  {
    if txs == [] then [] else
      var n := |txs| - 1;
      Executed(txs[..n], infos[..n]) + if infos[n].skipped then [] else [Entry(infos[n], txs[n])]
  }

  function PlacedRows(placed: seq<Placed>, codec: Codec): (r: seq<Output>)
    ensures |r| == |placed|
  {
    seq(|placed|, i requires 0 <= i < |placed| => Output(placed[i].outpoint, CoinOf(placed[i].output, codec), true))
  }

  function BundleRows(spends: seq<BundleSpend>): (r: seq<Spend>)
    ensures |r| == |spends|
  {
    seq(|spends|, i requires 0 <= i < |spends| =>
      Spend(spends[i].outpoint, spends[i].m6id, SPEND_WITHDRAWAL, Wrap32(i)))
  }

  function DeleteRows(deletes: seq<OutPoint>, hash: Hash): (r: seq<Spend>)
    ensures |r| == |deletes|
  {
    seq(|deletes|, i requires 0 <= i < |deletes| => Spend(deletes[i], hash, SPEND_MARKET, Wrap32(i)))
  }

  predicate PlacedDecodable(placed: seq<Placed>, codec: Codec) {
    forall i | 0 <= i < |placed| :: Decodable(placed[i].output, codec)
  }

  predicate DepositsTagged(deposits: seq<Placed>) {
    forall i | 0 <= i < |deposits| :: deposits[i].outpoint.kind == KIND_DEPOSIT
  }

  predicate Readable(b: NodeBlock, index: BlockIndex, codec: Codec) {
    && |index.txs| == |b.transactions|
    && AllDecodable(b.coinbase, codec)
    && EntriesDecodable(Executed(b.transactions, index.txs), codec)
    && DepositsTagged(index.deposits) && PlacedDecodable(index.deposits, codec)
    && PlacedDecodable(index.marketCreates, codec)
  }

  function CoinbaseRows(b: NodeBlock, codec: Codec): seq<Output> {
    Numbered(KIND_COINBASE, CoinbaseSource(b, codec), b.coinbase, codec)
  }

  /** The rows one block writes, or None when the node's answer cannot be read. */
  function Prepared(height: nat, hash: Hash, b: NodeBlock, index: BlockIndex, codec: Codec): Option<Block> {
    if !Readable(b, index, codec) then None else
      var es := Executed(b.transactions, index.txs);
      Some(Block(
        height, hash, b.header.prevSideHash, b.header.merkleRoot, b.header.prevMainHash,
        TxRows(index.txs),
        CoinbaseRows(b, codec) + AllCreates(es, codec)
        + PlacedRows(index.deposits, codec) + PlacedRows(index.marketCreates, codec),
        AllSpends(es) + BundleRows(index.bundleSpends) + DeleteRows(index.marketDeletes, hash)))
  }

  /** The rows of a whole mempool listing. */
  function PreparedPool(es: seq<Entry>, codec: Codec): Option<Pool> {
    if !EntriesDecodable(es, codec) then None else
      Some(Pool(TxRows(Infos(es)), AllCreates(es, codec), AllSpends(es)))
  }

  // ----- The loops

  method PrepareTx(e: Entry, codec: Codec) returns (ok: bool, spends: seq<Spend>, creates: seq<Output>)
    ensures ok == AllDecodable(e.tx.outputs, codec)
    ensures ok ==> spends == TxSpends(e) && creates == TxCreates(e, codec)
  {
    spends, creates := [], [];
    for i := 0 to |e.tx.inputs|
      invariant spends == TxSpends(e)[..i]
    {
      spends := spends + [Spend(e.tx.inputs[i], e.info.txid, SPEND_REGULAR, Wrap32(i))];
    }
    for i := 0 to |e.tx.outputs|
      invariant creates == TxCreates(e, codec)[..i]
      invariant forall j | 0 <= j < i :: Decodable(e.tx.outputs[j], codec)
    {
      match NewOutput(OutPoint(KIND_REGULAR, e.info.txid, Wrap32(i)), e.tx.outputs[i], codec) {
        case None => return false, [], [];
        case Some(row) => creates := creates + [row];
      }
    }
    ok := true;
  }

  method PrepareMempool(es: seq<Entry>, codec: Codec) returns (r: Option<Pool>)
    ensures r == PreparedPool(es, codec)
  {
    var txs, creates, spends := [], [], [];
    for i := 0 to |es|
      invariant txs == TxRows(Infos(es))[..i]
      invariant creates == AllCreates(es[..i], codec) && spends == AllSpends(es[..i])
      invariant EntriesDecodable(es[..i], codec)
    {
      var ok, s, c := PrepareTx(es[i], codec);
      if !ok {
        return None;
      }
      assert es[..i + 1] == es[..i] + [es[i]];
      EntriesSnoc(es[..i], es[i], codec);
      txs := txs + [Tx(es[i].info.txid, i, es[i].info.size, es[i].info.raw)];
      spends, creates := spends + s, creates + c;
    }
    assert es[..|es|] == es && txs == TxRows(Infos(es));
    r := Some(Pool(txs, creates, spends));
  }

  method PreparePlaced(placed: seq<Placed>, deposits: bool, codec: Codec) returns (ok: bool, creates: seq<Output>)
    ensures ok == (PlacedDecodable(placed, codec) && (deposits ==> DepositsTagged(placed)))
    ensures ok ==> creates == PlacedRows(placed, codec)
  {
    creates := [];
    for i := 0 to |placed|
      invariant creates == PlacedRows(placed, codec)[..i]
      invariant forall j | 0 <= j < i :: Decodable(placed[j].output, codec)
      invariant deposits ==> forall j | 0 <= j < i :: placed[j].outpoint.kind == KIND_DEPOSIT
    {
      if deposits && placed[i].outpoint.kind != KIND_DEPOSIT {
        return false, [];
      }
      match NewOutput(placed[i].outpoint, placed[i].output, codec) {
        case None => return false, [];
        case Some(row) => creates := creates + [row];
      }
    }
    ok := true;
  }

  method PrepareBody(txs: seq<Transaction>, infos: seq<TxInfo>, codec: Codec)
    returns (ok: bool, rows: seq<Tx>, spends: seq<Spend>, creates: seq<Output>)
    requires |txs| == |infos|
    ensures ok == EntriesDecodable(Executed(txs, infos), codec)
    ensures ok ==> rows == TxRows(infos)
    ensures ok ==> spends == AllSpends(Executed(txs, infos)) && creates == AllCreates(Executed(txs, infos), codec)
  {
    rows, spends, creates := [], [], [];
    for i := 0 to |txs|
      invariant rows == TxRows(infos)[..i]
      invariant spends == AllSpends(Executed(txs[..i], infos[..i]))
      invariant creates == AllCreates(Executed(txs[..i], infos[..i]), codec)
      invariant EntriesDecodable(Executed(txs[..i], infos[..i]), codec)
    {
      ExecutedSnoc(txs, infos, i);
      rows := rows + [Tx(infos[i].txid, i, infos[i].size, infos[i].raw)];
      if !infos[i].skipped {
        var done, s, c := PrepareTx(Entry(infos[i], txs[i]), codec);
        if !done {
          NotDecodable(txs, infos, i, codec);
          return false, [], [], [];
        }
        EntriesSnoc(Executed(txs[..i], infos[..i]), Entry(infos[i], txs[i]), codec);
        spends, creates := spends + s, creates + c;
      }
    }
    assert txs[..|txs|] == txs && infos[..|infos|] == infos;
    ok := true;
  }

  lemma {:induction false} ExecutedPrefix(txs: seq<Transaction>, infos: seq<TxInfo>, i: nat)
    requires |txs| == |infos| && i <= |txs|
    ensures Executed(txs[..i], infos[..i]) <= Executed(txs, infos)
    decreases |txs|
  {
    if i == |txs| {
      assert txs[..i] == txs && infos[..i] == infos;
    } else {
      var n := |txs| - 1;
      ExecutedPrefix(txs[..n], infos[..n], i);
      assert txs[..n][..i] == txs[..i] && infos[..n][..i] == infos[..i];
    }
  }

  lemma ExecutedSnoc(txs: seq<Transaction>, infos: seq<TxInfo>, i: nat)
    requires |txs| == |infos| && i < |txs|
    ensures infos[i].skipped ==> Executed(txs[..i + 1], infos[..i + 1]) == Executed(txs[..i], infos[..i])
    ensures !infos[i].skipped ==>
      Executed(txs[..i + 1], infos[..i + 1]) == Executed(txs[..i], infos[..i]) + [Entry(infos[i], txs[i])]
  {
    assert txs[..i + 1][..i] == txs[..i] && infos[..i + 1][..i] == infos[..i];
  }

  lemma EntriesSnoc(es: seq<Entry>, e: Entry, codec: Codec)
    ensures AllSpends(es + [e]) == AllSpends(es) + TxSpends(e)
    ensures AllCreates(es + [e], codec) == AllCreates(es, codec) + TxCreates(e, codec)
    ensures EntriesDecodable(es + [e], codec) <==> EntriesDecodable(es, codec) && AllDecodable(e.tx.outputs, codec)
  {
  }

  lemma {:induction false} NotDecodable(txs: seq<Transaction>, infos: seq<TxInfo>, i: nat, codec: Codec)
    requires |txs| == |infos| && i < |txs| && !infos[i].skipped && !AllDecodable(txs[i].outputs, codec)
    ensures !EntriesDecodable(Executed(txs, infos), codec)
  {
    ExecutedPrefix(txs, infos, i + 1);
    ExecutedSnoc(txs, infos, i);
    var n := |Executed(txs[..i], infos[..i])|;
    assert Executed(txs[..i + 1], infos[..i + 1])[n] == Entry(infos[i], txs[i]);
    assert Executed(txs, infos)[n] == Entry(infos[i], txs[i]);
  }

  method PrepareBlock(height: nat, hash: Hash, b: NodeBlock, index: BlockIndex, codec: Codec) returns (r: Option<Block>)
    ensures r == Prepared(height, hash, b, index, codec)
  {
    if |index.txs| != |b.transactions| {
      return None;
    }
    var source := CoinbaseSource(b, codec);
    var creates := [];
    for i := 0 to |b.coinbase|
      invariant creates == CoinbaseRows(b, codec)[..i]
      invariant forall j | 0 <= j < i :: Decodable(b.coinbase[j], codec)
    {
      match NewOutput(OutPoint(KIND_COINBASE, source, Wrap32(i)), b.coinbase[i], codec) {
        case None => return None;
        case Some(row) => creates := creates + [row];
      }
    }
    var ok, rows, spends, made := PrepareBody(b.transactions, index.txs, codec);
    if !ok {
      return None;
    }
    var okDeposits, deposits := PreparePlaced(index.deposits, true, codec);
    if !okDeposits {
      return None;
    }
    var bundles := [];
    for i := 0 to |index.bundleSpends|
      invariant bundles == BundleRows(index.bundleSpends)[..i]
    {
      var spend := index.bundleSpends[i];
      bundles := bundles + [Spend(spend.outpoint, spend.m6id, SPEND_WITHDRAWAL, Wrap32(i))];
    }
    var okMarket, market := PreparePlaced(index.marketCreates, false, codec);
    if !okMarket {
      return None;
    }
    var deletes := [];
    for i := 0 to |index.marketDeletes|
      invariant deletes == DeleteRows(index.marketDeletes, hash)[..i]
    {
      deletes := deletes + [Spend(index.marketDeletes[i], hash, SPEND_MARKET, Wrap32(i))];
    }
    assert creates == CoinbaseRows(b, codec);
    assert bundles == BundleRows(index.bundleSpends) && deletes == DeleteRows(index.marketDeletes, hash);
    r := Some(Block(height, hash, b.header.prevSideHash, b.header.merkleRoot, b.header.prevMainHash, rows,
                    creates + made + deposits + market, spends + bundles + deletes));
  }

  /** A keyed block's coinbase rows are named by the digest of its own header, an unkeyed one's by its merkle root. */
  lemma CoinbaseNamed(height: nat, hash: Hash, nb: NodeBlock, index: BlockIndex, codec: Codec)
    requires Prepared(height, hash, nb, index, codec).Some?
    ensures var b := Prepared(height, hash, nb, index, codec).value;
      && |nb.coinbase| <= |b.creates|
      && (nb.keyedByTxid ==> forall i | 0 <= i < |nb.coinbase| ::
            && b.creates[i].outpoint.kind == KIND_COINBASE
            && b.creates[i].outpoint.source == codec.coinbaseTxid(nb.header))
      && (!nb.keyedByTxid ==> forall i | 0 <= i < |nb.coinbase| ::
            b.creates[i].outpoint.kind == KIND_COINBASE && b.creates[i].outpoint.source == nb.header.merkleRoot)
  {
    var b := Prepared(height, hash, nb, index, codec).value;
    assert CoinbaseRows(nb, codec) <= b.creates;
  }

  // ----- What the rows say about the transactions

  lemma CreatedConcat(a: seq<Output>, b: seq<Output>)
    ensures Created(a + b) == Created(a) + Created(b)
  {
    forall i | 0 <= i < |a|
      ensures a[i].outpoint in Created(a + b)
    {
      assert (a + b)[i] == a[i];
    }
    forall i | 0 <= i < |b|
      ensures b[i].outpoint in Created(a + b)
    {
      assert (a + b)[|a| + i] == b[i];
    }
  }

  lemma ConsumedConcat(a: seq<Spend>, b: seq<Spend>)
    ensures Consumed(a + b) == Consumed(a) + Consumed(b)
  {
    forall i | 0 <= i < |a|
      ensures a[i].outpoint in Consumed(a + b)
    {
      assert (a + b)[i] == a[i];
    }
    forall i | 0 <= i < |b|
      ensures b[i].outpoint in Consumed(a + b)
    {
      assert (a + b)[|a| + i] == b[i];
    }
  }

  // ----- Every row has its cause, and every cause its row

  predicate CoinbaseRow(b: NodeBlock, codec: Codec, i: nat, o: Output) {
    && i < |b.coinbase|
    && o == Output(OutPoint(KIND_COINBASE, CoinbaseSource(b, codec), Wrap32(i)), CoinOf(b.coinbase[i], codec), true)
  }

  predicate TransactionRow(b: NodeBlock, index: BlockIndex, codec: Codec, k: nat, i: nat, o: Output) {
    && k < |b.transactions| && k < |index.txs| && !index.txs[k].skipped && i < |b.transactions[k].outputs|
    && o == Output(
              OutPoint(KIND_REGULAR, index.txs[k].txid, Wrap32(i)), CoinOf(b.transactions[k].outputs[i], codec), true)
  }

  predicate PlacedRow(placed: seq<Placed>, codec: Codec, i: nat, o: Output) {
    i < |placed| && o == Output(placed[i].outpoint, CoinOf(placed[i].output, codec), true)
  }

  predicate InputRow(b: NodeBlock, index: BlockIndex, k: nat, i: nat, s: Spend) {
    && k < |b.transactions| && k < |index.txs| && !index.txs[k].skipped && i < |b.transactions[k].inputs|
    && s == Spend(b.transactions[k].inputs[i], index.txs[k].txid, SPEND_REGULAR, Wrap32(i))
  }

  predicate BundleRow(index: BlockIndex, i: nat, s: Spend) {
    && i < |index.bundleSpends|
    && s == Spend(index.bundleSpends[i].outpoint, index.bundleSpends[i].m6id, SPEND_WITHDRAWAL, Wrap32(i))
  }

  predicate DeleteRow(index: BlockIndex, hash: Hash, i: nat, s: Spend) {
    i < |index.marketDeletes| && s == Spend(index.marketDeletes[i], hash, SPEND_MARKET, Wrap32(i))
  }

  lemma {:induction false} InExecuted(txs: seq<Transaction>, infos: seq<TxInfo>, e: Entry)
    requires |txs| == |infos|
    ensures e in Executed(txs, infos) <==> exists k: nat :: ExecutedAt(txs, infos, k, e)
    decreases |txs|
  {
    if txs == [] {
    } else {
      var n := |txs| - 1;
      InExecuted(txs[..n], infos[..n], e);
      ExecutedBelow(txs, infos, n, e);
    }
  }

  lemma ExecutedBelow(txs: seq<Transaction>, infos: seq<TxInfo>, n: nat, e: Entry)
    requires |txs| == |infos| == n + 1
    ensures (exists k: nat :: ExecutedAt(txs, infos, k, e)) <==>
      ExecutedAt(txs, infos, n, e) || exists k: nat :: ExecutedAt(txs[..n], infos[..n], k, e)
  {
    if k: nat :| ExecutedAt(txs, infos, k, e) {
      assert k < n ==> ExecutedAt(txs[..n], infos[..n], k, e);
    }
    if k: nat :| ExecutedAt(txs[..n], infos[..n], k, e) {
      assert ExecutedAt(txs, infos, k, e);
    }
  }

  predicate ExecutedAt(txs: seq<Transaction>, infos: seq<TxInfo>, k: nat, e: Entry) {
    k < |txs| && k < |infos| && !infos[k].skipped && e == Entry(infos[k], txs[k])
  }

  lemma {:induction false} InAll(es: seq<Entry>, codec: Codec, o: Output, s: Spend)
    ensures o in AllCreates(es, codec) <==> exists e | e in es :: o in TxCreates(e, codec)
    ensures s in AllSpends(es) <==> exists e | e in es :: s in TxSpends(e)
    decreases |es|
  {
    if es == [] {
    } else {
      var n := |es| - 1;
      InAll(es[..n], codec, o, s);
      assert es == es[..n] + [es[n]];
    }
  }

  lemma TransactionRows(b: NodeBlock, index: BlockIndex, codec: Codec, o: Output)
    requires |b.transactions| == |index.txs|
    ensures o in AllCreates(Executed(b.transactions, index.txs), codec) <==>
            exists k: nat, i: nat :: TransactionRow(b, index, codec, k, i, o)
  {
    var es := Executed(b.transactions, index.txs);
    InAll(es, codec, o, Spend(o.outpoint, o.outpoint.source, 0, 0));
    if o in AllCreates(es, codec) {
      var e :| e in es && o in TxCreates(e, codec);
      InExecuted(b.transactions, index.txs, e);
      var k: nat :| ExecutedAt(b.transactions, index.txs, k, e);
      var i :| 0 <= i < |TxCreates(e, codec)| && TxCreates(e, codec)[i] == o;
      assert TransactionRow(b, index, codec, k, i, o);
    }
    if exists k: nat, i: nat :: TransactionRow(b, index, codec, k, i, o) {
      var k: nat, i: nat :| TransactionRow(b, index, codec, k, i, o);
      var e := Entry(index.txs[k], b.transactions[k]);
      assert ExecutedAt(b.transactions, index.txs, k, e);
      InExecuted(b.transactions, index.txs, e);
      assert TxCreates(e, codec)[i] == o;
    }
  }

  lemma InputRows(b: NodeBlock, index: BlockIndex, codec: Codec, s: Spend)
    requires |b.transactions| == |index.txs|
    ensures s in AllSpends(Executed(b.transactions, index.txs)) <==>
            exists k: nat, i: nat :: InputRow(b, index, k, i, s)
  {
    var es := Executed(b.transactions, index.txs);
    InAll(es, codec, Output(s.outpoint, Coin([], 0, "", ""), true), s);
    if s in AllSpends(es) {
      var e :| e in es && s in TxSpends(e);
      InExecuted(b.transactions, index.txs, e);
      var k: nat :| ExecutedAt(b.transactions, index.txs, k, e);
      var i :| 0 <= i < |TxSpends(e)| && TxSpends(e)[i] == s;
      assert InputRow(b, index, k, i, s);
    }
    if exists k: nat, i: nat :: InputRow(b, index, k, i, s) {
      var k: nat, i: nat :| InputRow(b, index, k, i, s);
      var e := Entry(index.txs[k], b.transactions[k]);
      assert ExecutedAt(b.transactions, index.txs, k, e);
      InExecuted(b.transactions, index.txs, e);
      assert TxSpends(e)[i] == s;
    }
  }

  lemma PlacedInRows(placed: seq<Placed>, codec: Codec, o: Output)
    ensures o in PlacedRows(placed, codec) <==> exists i: nat :: PlacedRow(placed, codec, i, o)
  {
    if o in PlacedRows(placed, codec) {
      var i :| 0 <= i < |placed| && PlacedRows(placed, codec)[i] == o;
      assert PlacedRow(placed, codec, i, o);
    }
    if exists i: nat :: PlacedRow(placed, codec, i, o) {
      var i: nat :| PlacedRow(placed, codec, i, o);
      assert PlacedRows(placed, codec)[i] == o;
    }
  }

  lemma CoinbaseInRows(b: NodeBlock, codec: Codec, o: Output)
    ensures o in CoinbaseRows(b, codec) <==> exists i: nat :: CoinbaseRow(b, codec, i, o)
  {
    if o in CoinbaseRows(b, codec) {
      var i :| 0 <= i < |b.coinbase| && CoinbaseRows(b, codec)[i] == o;
      assert CoinbaseRow(b, codec, i, o);
    }
    if exists i: nat :: CoinbaseRow(b, codec, i, o) {
      var i: nat :| CoinbaseRow(b, codec, i, o);
      assert CoinbaseRows(b, codec)[i] == o;
    }
  }

  /**
   A block writes an output row exactly for each coinbase output, each output of a transaction that was not
   skipped, each deposit and each market create.
   */
  lemma CreatesExplained(height: nat, hash: Hash, nb: NodeBlock, index: BlockIndex, codec: Codec, b: Block, o: Output)
    requires Prepared(height, hash, nb, index, codec) == Some(b)
    ensures o in b.creates <==>
      || (exists i: nat :: CoinbaseRow(nb, codec, i, o))
      || (exists k: nat, i: nat :: TransactionRow(nb, index, codec, k, i, o))
      || (exists i: nat :: PlacedRow(index.deposits, codec, i, o))
      || (exists i: nat :: PlacedRow(index.marketCreates, codec, i, o))
  {
    CoinbaseInRows(nb, codec, o);
    TransactionRows(nb, index, codec, o);
    PlacedInRows(index.deposits, codec, o);
    PlacedInRows(index.marketCreates, codec, o);
  }

  lemma BundleInRows(index: BlockIndex, s: Spend)
    ensures s in BundleRows(index.bundleSpends) <==> exists i: nat :: BundleRow(index, i, s)
  {
    if s in BundleRows(index.bundleSpends) {
      var i :| 0 <= i < |index.bundleSpends| && BundleRows(index.bundleSpends)[i] == s;
      assert BundleRow(index, i, s);
    }
    if exists i: nat :: BundleRow(index, i, s) {
      var i: nat :| BundleRow(index, i, s);
      assert BundleRows(index.bundleSpends)[i] == s;
    }
  }

  lemma DeleteInRows(index: BlockIndex, hash: Hash, s: Spend)
    ensures s in DeleteRows(index.marketDeletes, hash) <==> exists i: nat :: DeleteRow(index, hash, i, s)
  {
    if s in DeleteRows(index.marketDeletes, hash) {
      var i :| 0 <= i < |index.marketDeletes| && DeleteRows(index.marketDeletes, hash)[i] == s;
      assert DeleteRow(index, hash, i, s);
    }
    if exists i: nat :: DeleteRow(index, hash, i, s) {
      var i: nat :| DeleteRow(index, hash, i, s);
      assert DeleteRows(index.marketDeletes, hash)[i] == s;
    }
  }

  /** And a spend exactly for each input of such a transaction, each bundle spend and each market delete. */
  lemma SpendsExplained(height: nat, hash: Hash, nb: NodeBlock, index: BlockIndex, codec: Codec, b: Block, s: Spend)
    requires Prepared(height, hash, nb, index, codec) == Some(b)
    ensures s in b.spends <==>
      || (exists k: nat, i: nat :: InputRow(nb, index, k, i, s))
      || (exists i: nat :: BundleRow(index, i, s))
      || (exists i: nat :: DeleteRow(index, hash, i, s))
  {
    InputRows(nb, index, codec, s);
    BundleInRows(index, s);
    DeleteInRows(index, hash, s);
  }

  // ----- What the rows hold

  /** The block row takes its links and roots from the header. */
  lemma PreparedHeader(height: nat, hash: Hash, nb: NodeBlock, index: BlockIndex, codec: Codec, b: Block)
    requires Prepared(height, hash, nb, index, codec) == Some(b)
    ensures b.height == height && b.hash == hash && b.prev == nb.header.prevSideHash
    ensures b.merkleRoot == nb.header.merkleRoot && b.mainHash == nb.header.prevMainHash
    ensures |b.txs| == |nb.transactions|
  {
  }

  /** Transaction row `i` is transaction `i` of the body, under the identity the node computed for it. */
  lemma PreparedPlaces(height: nat, hash: Hash, nb: NodeBlock, index: BlockIndex, codec: Codec, b: Block, i: nat)
    requires Prepared(height, hash, nb, index, codec) == Some(b) && i < |nb.transactions|
    ensures i < |b.txs| && i < |index.txs|
    ensures b.txs[i].index == i && b.txs[i].txid == index.txs[i].txid
    ensures b.txs[i].size == index.txs[i].size && b.txs[i].raw == index.txs[i].raw
  {
  }

  /** What a row stores beside its outpoint: the content as sent, and what the decoder reads from that content. */
  predicate ContentStored(row: Output, o: NodeOutput, codec: Codec) {
    && row.coin.address == o.address && row.coin.content == o.content && row.heightExact
    && codec.decode(row.coin.content) == Some(Content(row.coin.value, row.coin.contentType))
  }

  /** Every row of a block stores the content of the output it stands for, with the value the decoder reads there. */
  lemma RowsStoreContent(height: nat, hash: Hash, nb: NodeBlock, index: BlockIndex, codec: Codec, b: Block, row: Output)
    requires Prepared(height, hash, nb, index, codec) == Some(b) && row in b.creates
    ensures || (exists o | o in nb.coinbase :: ContentStored(row, o, codec))
            || (exists t, o | t in nb.transactions && o in t.outputs :: ContentStored(row, o, codec))
            || (exists p | p in index.deposits + index.marketCreates :: ContentStored(row, p.output, codec))
  {
    CreatesExplained(height, hash, nb, index, codec, b, row);
    if i: nat :| CoinbaseRow(nb, codec, i, row) {
      assert Decodable(nb.coinbase[i], codec) && nb.coinbase[i] in nb.coinbase;
      assert ContentStored(row, nb.coinbase[i], codec);
    } else if k: nat, i: nat :| TransactionRow(nb, index, codec, k, i, row) {
      var t := nb.transactions[k];
      ExecutedDecodes(nb, index, codec, k, i);
      assert t in nb.transactions && t.outputs[i] in t.outputs && ContentStored(row, t.outputs[i], codec);
    } else if i: nat :| PlacedRow(index.deposits, codec, i, row) {
      var p := index.deposits[i];
      assert p in index.deposits + index.marketCreates && ContentStored(row, p.output, codec);
    } else {
      var i: nat :| PlacedRow(index.marketCreates, codec, i, row);
      var p := index.marketCreates[i];
      assert p in index.deposits + index.marketCreates && ContentStored(row, p.output, codec);
    }
  }

  lemma ExecutedDecodes(nb: NodeBlock, index: BlockIndex, codec: Codec, k: nat, i: nat)
    requires Readable(nb, index, codec) && k < |nb.transactions| && !index.txs[k].skipped
    requires i < |nb.transactions[k].outputs|
    ensures Decodable(nb.transactions[k].outputs[i], codec)
  {
    var e := Entry(index.txs[k], nb.transactions[k]);
    assert ExecutedAt(nb.transactions, index.txs, k, e);
    InExecuted(nb.transactions, index.txs, e);
    var es := Executed(nb.transactions, index.txs);
    var n :| 0 <= n < |es| && es[n] == e;
    assert AllDecodable(es[n].tx.outputs, codec);
  }

  /**
   A block can be read if and only if the node names each transaction once, every deposit is of the deposit kind, and
   every output decodes, those of skipped transactions excepted.
   */
  lemma PreparedExactly(height: nat, hash: Hash, nb: NodeBlock, index: BlockIndex, codec: Codec)
    ensures Prepared(height, hash, nb, index, codec).Some? <==>
      && |index.txs| == |nb.transactions|
      && (forall i | 0 <= i < |index.deposits| :: index.deposits[i].outpoint.kind == KIND_DEPOSIT)
      && (forall o | o in nb.coinbase :: codec.decode(o.content).Some?)
      && (forall p | p in index.deposits + index.marketCreates :: codec.decode(p.output.content).Some?)
      && forall k | 0 <= k < |nb.transactions| ::
        index.txs[k].skipped || AllDecodable(nb.transactions[k].outputs, codec)
  {
    if |index.txs| == |nb.transactions| {
      BodyDecodes(nb.transactions, index.txs, codec);
      assert forall i | 0 <= i < |index.deposits| :: index.deposits[i] in index.deposits + index.marketCreates;
      assert forall i | 0 <= i < |index.marketCreates| ::
        index.marketCreates[i] in index.deposits + index.marketCreates;
      assert forall i | 0 <= i < |nb.coinbase| :: nb.coinbase[i] in nb.coinbase;
    }
  }

  lemma {:induction false} BodyDecodes(txs: seq<Transaction>, infos: seq<TxInfo>, codec: Codec)
    requires |txs| == |infos|
    ensures EntriesDecodable(Executed(txs, infos), codec) <==>
      forall k | 0 <= k < |txs| :: infos[k].skipped || AllDecodable(txs[k].outputs, codec)
    decreases |txs|
  {
    if txs != [] {
      var n := |txs| - 1;
      var rest := Executed(txs[..n], infos[..n]);
      BodyDecodes(txs[..n], infos[..n], codec);
      assert forall k | 0 <= k < n :: txs[..n][k] == txs[k] && infos[..n][k] == infos[k];
      assert Executed(txs, infos)[..|rest|] == rest;
      assert forall i | 0 <= i < |rest| :: rest[i] == Executed(txs, infos)[i];
      assert !infos[n].skipped ==> Executed(txs, infos)[|rest|].tx == txs[n];
    }
  }

  /** The outputs of one list have different outpoints, as long as their positions fit. */
  lemma NumberedApart(kind: byte, source: Hash, outputs: seq<NodeOutput>, codec: Codec)
    requires |outputs| <= 0x1_0000_0000
    ensures DistinctCreates(Numbered(kind, source, outputs, codec))
    ensures forall i | 0 <= i < |outputs| ::
      Numbered(kind, source, outputs, codec)[i].outpoint == OutPoint(kind, source, i)
  {
  }
}
