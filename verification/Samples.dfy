/** The small values that concrete blocks are built from. */
module Samples {
  import opened Rows
  import opened Ledger
  import opened Prepare

  function Filled(x: byte): (h: Hash)
    ensures forall i | 0 <= i < 32 :: h[i] == x
  {
    seq(32, i => x)
  }

  lemma HashesDiffer(x: byte, y: byte)
    ensures Filled(x) == Filled(y) <==> x == y
  {
    assert Filled(x)[0] == x && Filled(y)[0] == y;
  }

  predicate Anyone(a: Address) {
    true
  }

  function Bare(height: nat, hash: Hash, prev: Option<Hash>): Block {
    Block(height, hash, prev, Filled(0), Filled(0), [], [], [])
  }

  /** Every output is worth one. */
  function Ones(): Codec {
    Codec((s: string) => Some(Content(1, "")), (h: Header) => h.merkleRoot)
  }

  lemma NoCoinbase(rows: map<OutPoint, OutputRow>)
    requires forall o | o in rows :: o.kind != KIND_COINBASE
    ensures UniqueCoinbase(rows)
  {
  }
}
