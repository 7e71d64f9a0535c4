/** Whole runs of blocks mining from one snapshot: every block takes from what the ones before it left. */
module Mining {
  import opened Rows
  import opened Ledger
  import opened Undo
  import opened Prepare
  import opened Coins
  import opened Overlay
  import opened Takeover

  /** One block, with what it mines and takes from the snapshot and what it removes otherwise. */
  datatype Haul = Haul(write: Write, mined: set<OutPoint>, taken: set<OutPoint>, removed: set<OutPoint>)

  /** `states` are the states before the first block and after each; each block mines from what is left. */
  ghost predicate MiningRun(states: seq<State>, hauls: seq<Haul>) {
    |states| == |hauls| + 1 && forall k :: MiningAt(states, hauls, k)
  }

  ghost predicate MiningAt(states: seq<State>, hauls: seq<Haul>, k: nat) {
    k < |hauls| && k + 1 < |states| ==> Lands(states[k], hauls[k], states[k + 1])
  }

  ghost predicate Lands(s: State, h: Haul, t: State) {
    && Allowed(s.c, h.write) && MinesFrom(s, h.write.block, h.mined, h.taken, h.removed)
    && t == AppliedState(s, h.write)
  }

  /** A list after the first `k` blocks, if each moves it only by its outside creates and removals. */
  function MovedBy(list: map<OutPoint, Coin>, hauls: seq<Haul>, k: nat, mine: Owner): map<OutPoint, Coin>
    requires k <= |hauls|
  {
    if k == 0 then list else
      var h := hauls[k - 1];
      (MovedBy(list, hauls, k - 1, mine) + OutsideCoins(h.write.block, h.mined, mine)) - h.removed
  }

  ghost predicate FollowsAt(states: seq<State>, hauls: seq<Haul>, k: nat) {
    k < |states| && k <= |hauls| ==>
      forall mine: Owner :: View(states[k], mine) == MovedBy(View(states[0], mine), hauls, k, mine)
  }

  /** Block `k` takes no unconfirmed coin it does not mine, and makes none that what is left of the snapshot claims. */
  ghost predicate KeepsAt(states: seq<State>, hauls: seq<Haul>, k: nat) {
    k < |states| && k < |hauls| ==>
      var m, h := states[k].m, hauls[k];
      AncestorClosed(m, h.write.block) && Unclaimed(m, h.write.block, h.mined, h.removed)
  }

  lemma FollowsNext(states: seq<State>, hauls: seq<Haul>, k: nat)
    requires MiningRun(states, hauls) && k < |hauls| && FollowsAt(states, hauls, k)
    ensures FollowsAt(states, hauls, k + 1) <==> KeepsAt(states, hauls, k)
  {
    var s, h := states[k], hauls[k];
    assert MiningAt(states, hauls, k);
    BlockTakesOver(s, h.write, h.mined, h.taken, h.removed);
    forall mine: Owner
      ensures MovedBy(View(states[0], mine), hauls, k + 1, mine)
           == Expected(s, h.write.block, h.mined, h.removed, mine)
    {
      MovedOnce(states, hauls, k, mine);
    }
    FollowsIsMoves(states, hauls, k);
  }

  lemma MovedOnce(states: seq<State>, hauls: seq<Haul>, k: nat, mine: Owner)
    requires k < |hauls| && k < |states| && FollowsAt(states, hauls, k)
    ensures MovedBy(View(states[0], mine), hauls, k + 1, mine)
         == Expected(states[k], hauls[k].write.block, hauls[k].mined, hauls[k].removed, mine)
  {
    assert View(states[k], mine) == MovedBy(View(states[0], mine), hauls, k, mine);
  }

  lemma FollowsIsMoves(states: seq<State>, hauls: seq<Haul>, k: nat)
    requires k < |hauls| && k + 1 < |states|
    requires forall mine: Owner ::
      MovedBy(View(states[0], mine), hauls, k + 1, mine)
      == Expected(states[k], hauls[k].write.block, hauls[k].mined, hauls[k].removed, mine)
    ensures FollowsAt(states, hauls, k + 1)
       <==> MovesOnlyOutside(states[k], states[k + 1], hauls[k].write.block, hauls[k].mined, hauls[k].removed)
  {
  }

  lemma FollowsAfter(states: seq<State>, hauls: seq<Haul>, k: nat, n: nat)
    requires MiningRun(states, hauls) && k < |hauls| && n == k + 1
    requires FollowsAt(states, hauls, k) && KeepsAt(states, hauls, k)
    ensures FollowsAt(states, hauls, n)
  {
    FollowsNext(states, hauls, k);
  }

  lemma {:induction false} KeptFollows(states: seq<State>, hauls: seq<Haul>, n: nat)
    requires MiningRun(states, hauls) && n <= |hauls| && forall k: nat | k < n :: KeepsAt(states, hauls, k)
    ensures FollowsAt(states, hauls, n)
    decreases n
  {
    if n == 0 {
    } else {
      KeptFollows(states, hauls, n - 1);
      assert KeepsAt(states, hauls, n - 1);
      FollowsAfter(states, hauls, n - 1, n);
    }
  }

  /**
   Through a whole run of blocks mining from one snapshot, every owner's list moves only by outside creates and
   removals after every block, if and only if every block closes over what it takes and makes no coin that what is
   left of the snapshot claims.
   */
  lemma RunKeepsBalances(states: seq<State>, hauls: seq<Haul>, n: nat)
    requires MiningRun(states, hauls) && n <= |hauls|
    ensures (forall k: nat | k <= n :: FollowsAt(states, hauls, k))
       <==> (forall k: nat | k < n :: KeepsAt(states, hauls, k))
  {
    if forall k: nat | k < n :: KeepsAt(states, hauls, k) {
      forall k: nat | k <= n
        ensures FollowsAt(states, hauls, k)
      {
        KeptFollows(states, hauls, k);
      }
    }
    if forall k: nat | k <= n :: FollowsAt(states, hauls, k) {
      forall k: nat | k < n
        ensures KeepsAt(states, hauls, k)
      {
        assert FollowsAt(states, hauls, k) && FollowsAt(states, hauls, k + 1);
        FollowsNext(states, hauls, k);
      }
    }
  }

  // ----- In the node's own terms

  /** One block as the node served it, and the write it became. */
  datatype Landed = Landed(write: Write, height: nat, hash: Hash, block: NodeBlock, index: BlockIndex)

  function EntriesOf(l: Landed): seq<Entry>
    requires |l.block.transactions| == |l.index.txs|
  {
    Executed(l.block.transactions, l.index.txs)
  }

  function HaulOf(l: Landed, codec: Codec): Haul
    requires |l.block.transactions| == |l.index.txs|
  {
    Haul(l.write, Created(AllCreates(EntriesOf(l), codec)), Consumed(AllSpends(EntriesOf(l))),
         Consumed(OutsideSpends(l.index, l.hash)))
  }

  /** What is left of a snapshot of `pool`, over tables that hold none of it. */
  ghost predicate LeftOf(s: State, pool: seq<Entry>, codec: Codec) {
    && s.c.outputs.Keys !! s.m.outputs.Keys
    && forall o | o in s.m.outputs ::
         o in FirstCoins(AllCreates(pool, codec)) && s.m.outputs[o] == FirstCoins(AllCreates(pool, codec))[o]
  }

  /** The block executes listed transactions whose coins and claims are still there; its other coins are new. */
  ghost predicate MinesLeft(s: State, pool: seq<Entry>, codec: Codec, l: Landed) {
    && Prepared(l.height, l.hash, l.block, l.index, codec) == Some(l.write.block)
    && Allowed(s.c, l.write) && DistinctCreates(l.write.block.creates)
    && (forall e | e in EntriesOf(l) :: e in pool)
    && Created(AllCreates(EntriesOf(l), codec)) <= s.m.outputs.Keys
    && Consumed(AllSpends(EntriesOf(l))) <= s.m.spends.Keys
    && Created(OutsideCreates(l.block, l.index, codec)) !! s.c.outputs.Keys + s.m.outputs.Keys
  }

  lemma LeftMines(s: State, pool: seq<Entry>, codec: Codec, l: Landed)
    requires RowsAnchored(s.c) && LeftOf(s, pool, codec) && MinesLeft(s, pool, codec, l)
    requires DistinctCreates(AllCreates(pool, codec))
    ensures Lands(s, HaulOf(l, codec), AppliedState(s, l.write))
  {
    var b, es, h := l.write.block, EntriesOf(l), HaulOf(l, codec);
    PreparedSplits(l.height, l.hash, l.block, l.index, codec, b);
    forall o
      ensures MinedAt(s, b, h.mined, o)
    {
      assert OutputAnchored(s.c, o);
      if o in h.mined {
        SharedCoin(es, pool, b.creates, codec, o);
      }
    }
  }

  lemma LeftStays(s: State, pool: seq<Entry>, codec: Codec, w: Write)
    requires LeftOf(s, pool, codec) && Picks(w.block.height, w.block.spends, w.marks)
    ensures LeftOf(AppliedState(s, w), pool, codec)
  {
    var t := AppliedState(s, w);
    AppliedRows(s.c, w);
    forall o | o in t.m.outputs
      ensures o !in t.c.outputs
    {
      assert AfterAt(s.c.outputs, w.block, w.marks, t.c.outputs, o);
    }
  }

  /** A run of served blocks over the snapshot `states[0]` of `pool`. */
  ghost predicate LandedRun(states: seq<State>, landed: seq<Landed>, pool: seq<Entry>, codec: Codec) {
    |states| == |landed| + 1 && forall k :: LandedAt(states, landed, pool, codec, k)
  }

  ghost predicate LandedAt(states: seq<State>, landed: seq<Landed>, pool: seq<Entry>, codec: Codec, k: nat) {
    k < |landed| && k + 1 < |states| ==>
      MinesLeft(states[k], pool, codec, landed[k]) && states[k + 1] == AppliedState(states[k], landed[k].write)
  }

  ghost predicate LengthsMatch(landed: seq<Landed>) {
    forall k | 0 <= k < |landed| :: |landed[k].block.transactions| == |landed[k].index.txs|
  }

  function HaulsOf(landed: seq<Landed>, codec: Codec): (r: seq<Haul>)
    requires forall k | 0 <= k < |landed| :: |landed[k].block.transactions| == |landed[k].index.txs|
    ensures |r| == |landed| && forall k | 0 <= k < |r| :: r[k] == HaulOf(landed[k], codec)
  {
    seq(|landed|, k requires 0 <= k < |landed| => HaulOf(landed[k], codec))
  }

  lemma {:induction false} LeftOverRun(states: seq<State>, landed: seq<Landed>, pool: seq<Entry>, codec: Codec, n: nat)
    requires LandedRun(states, landed, pool, codec) && n < |states|
    requires Sound(states[0].c) && LeftOf(states[0], pool, codec)
    ensures Sound(states[n].c) && LeftOf(states[n], pool, codec)
    decreases n
  {
    if n == 0 {
    } else {
      var s, w := states[n - 1], landed[n - 1].write;
      LeftOverRun(states, landed, pool, codec, n - 1);
      assert LandedAt(states, landed, pool, codec, n - 1);
      AppliedSound(s.c, w.block, w.marks);
      LeftStays(s, pool, codec, w);
    }
  }

  lemma LandedIsMining(states: seq<State>, landed: seq<Landed>, pool: seq<Entry>, codec: Codec)
    requires LandedRun(states, landed, pool, codec) && DistinctCreates(AllCreates(pool, codec))
    requires Sound(states[0].c) && LeftOf(states[0], pool, codec)
    ensures LengthsMatch(landed) && MiningRun(states, HaulsOf(landed, codec))
  {
    forall k: nat | k < |landed|
      ensures MinesLeft(states[k], pool, codec, landed[k])
    {
      assert LandedAt(states, landed, pool, codec, k);
    }
    forall k: nat
      ensures MiningAt(states, HaulsOf(landed, codec), k)
    {
      if k < |landed| {
        assert LandedAt(states, landed, pool, codec, k);
        LeftOverRun(states, landed, pool, codec, k);
        LeftMines(states[k], pool, codec, landed[k]);
      }
    }
  }

  /** The same over any run of blocks the node serves after one snapshot of its mempool. */
  lemma MinedRunKeepsBalances(
    s0: State, pool: seq<Entry>, now: int, states: seq<State>, landed: seq<Landed>, codec: Codec, n: nat)
    requires Sound(s0.c) && PreparedPool(pool, codec).Some? && states != []
    requires Replaced(s0, PreparedPool(pool, codec).value, now) == Some(states[0])
    requires DistinctCreates(AllCreates(pool, codec)) && Created(AllCreates(pool, codec)) !! s0.c.outputs.Keys
    requires LandedRun(states, landed, pool, codec) && n <= |landed|
    ensures LengthsMatch(landed)
    ensures var hauls := HaulsOf(landed, codec);
      (forall k: nat | k <= n :: FollowsAt(states, hauls, k)) <==> (forall k: nat | k < n :: KeepsAt(states, hauls, k))
  {
    SnapshotTables(s0, pool, codec, now);
    LandedIsMining(states, landed, pool, codec);
    RunKeepsBalances(states, HaulsOf(landed, codec), n);
  }
}
