/** Which chains a node can serve that the index can follow to the end. */
module Serving {
  import opened Rows
  import opened Ledger
  import opened Prepare
  import opened Mining
  import opened Coinbases
  import opened Sync
  import opened Syncers

  /** Block `k` can be read, under a hash no block below it has. */
  ghost predicate ServesAt(chain: seq<Served>, codec: Codec, k: nat) {
    k < |chain| ==>
      && Readable(chain[k].block, chain[k].index, codec)
      && forall j | 0 <= j < k :: chain[j].hash != chain[k].hash
  }

  ghost predicate Serves(chain: seq<Served>, codec: Codec) {
    forall k :: ServesAt(chain, codec, k)
  }

  /** The market creates of the node are of other kinds than the coinbase. */
  ghost predicate MarketsApart(chain: seq<Served>) {
    forall k | 0 <= k < |chain| :: MarketApart(chain[k].index.marketCreates)
  }

  ghost predicate MarketApart(creates: seq<Placed>) {
    forall j | 0 <= j < |creates| :: creates[j].outpoint.kind != KIND_COINBASE
  }

  /** On a replay of the blocks below, block `k` is one more step exactly when it can be read and its hash is new. */
  lemma StepServed(step: Step, chain: seq<Served>, codec: Codec, states: seq<Confirmed>, k: nat)
    requires Lawful(step) && MarketsApart(chain) && k < |chain|
    requires Trace(step, Indexed(chain, codec), states) && |states| == k + 1
    ensures step(states[k], Indexed(chain, codec), k).Some? <==> ServesAt(chain, codec, k)
  {
    var links, c, s := Indexed(chain, codec), states[k], chain[k];
    TraceSound(step, links, states, k);
    assert StepIs(step, c, links, k);
    if Readable(s.block, s.index, codec) {
      var b := links[k].rows.value;
      AcceptedExactly(c, Landed(WriteOf(b), k, s.hash, s.block, s.index), codec);
      CarriedHashes(c, links, k);
      assert forall j | 0 <= j < k :: links[j].hash == chain[j].hash;
    }
  }

  lemma CarriedHashes(c: Confirmed, links: Chain, k: nat)
    requires k < |links| && Carries(c, links, k)
    ensures (forall j | j in c.blocks :: c.blocks[j].hash != links[k].hash) <==>
      forall j | 0 <= j < k :: links[j].hash != links[k].hash
  {
    forall j: nat
      ensures j in c.blocks <==> j < k
      ensures j < k ==> c.blocks[j].hash == links[j].hash
    {
      assert CarriesAt(c, links, k, j);
    }
  }

  lemma {:induction false} ServedTrace(step: Step, chain: seq<Served>, codec: Codec, m: nat)
    returns (states: seq<Confirmed>)
    requires Lawful(step) && MarketsApart(chain) && Serves(chain, codec) && m <= |chain|
    ensures Trace(step, Indexed(chain, codec), states) && |states| == m + 1
    decreases m
  {
    if m == 0 {
      states := [EMPTY];
    } else {
      states := ServedTrace(step, chain, codec, m - 1);
      StepServed(step, chain, codec, states, m - 1);
      assert ServesAt(chain, codec, m - 1);
      var d := step(states[m - 1], Indexed(chain, codec), m - 1).value;
      TraceGrows(step, Indexed(chain, codec), states, d);
      states := states + [d];
    }
  }

  /** A chain can be replayed if and only if every block of it can be read and no two have one hash. */
  lemma ReplaysExactly(step: Step, chain: seq<Served>, codec: Codec)
    requires Lawful(step) && MarketsApart(chain)
    ensures Replay(step, Indexed(chain, codec)).Some? <==> Serves(chain, codec)
  {
    var links := Indexed(chain, codec);
    if Serves(chain, codec) {
      var states := ServedTrace(step, chain, codec, |chain|);
      TraceIsReplay(step, links, states, |chain|);
    }
    if Replay(step, links).Some? {
      var states := ReplayHasTrace(step, links, |chain|);
      forall k: nat
        ensures ServesAt(chain, codec, k)
      {
        if k < |chain| {
          TraceCut(step, links, states, k);
          StepServed(step, chain, codec, states[..k + 1], k);
        }
      }
    }
  }

  lemma TraceCut(step: Step, links: Chain, states: seq<Confirmed>, k: nat)
    requires Trace(step, links, states) && k + 1 < |states|
    ensures Trace(step, links, states[..k + 1]) && step(states[..k + 1][k], links, k) == Some(states[k + 1])
  {
    var cut := states[..k + 1];
    assert TraceAt(step, links, states, k);
    forall j: nat
      ensures TraceAt(step, links, cut, j)
    {
      assert TraceAt(step, links, states, j);
    }
  }
}
