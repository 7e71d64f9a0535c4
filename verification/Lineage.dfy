/**
 What the index holds when the node moves under a pass. Nothing compares a header with the index tip, so blocks of
 different chains can come to lie on each other: the index is then the replay of the chain it was actually served.
 */
module Lineage {
  import opened Rows
  import opened Ledger
  import opened Undo
  import opened Sync
  import opened Convergence

  // ----- The chain a log of changes was served

  /** A written block as a link: its own hash, the hash its header names, its rows. */
  function LinkOf(b: Block): Link {
    Link(b.hash, b.prev, Some(b))
  }

  /** The blocks written by the first `n` changes and not undone since. */
  function ServedChain(log: seq<Change>, n: nat): Chain
    requires n <= |log|
  {
    if n == 0 then [] else
      var before := ServedChain(log, n - 1);
      match log[n - 1]
      case Wrote(w) => before + [LinkOf(w.block)]
      case Undid(h) => if h < |before| then before[..h + 1] else before
  }

  /** No written block spends an outpoint twice, or one that was already marked when it was written. */
  ghost predicate CleanLog(commits: seq<Confirmed>, log: seq<Change>) {
    forall k :: CleanLogAt(commits, log, k)
  }

  ghost predicate CleanLogAt(commits: seq<Confirmed>, log: seq<Change>, k: nat) {
    k < |log| && k < |commits| && log[k].Wrote? ==> CleanOn(StateAfter(commits, k), log[k].write.block)
  }

  ghost predicate AllSound(commits: seq<Confirmed>) {
    forall c | c in commits :: Sound(c)
  }

  /** A write that leaves sound tables was at the next height. */
  lemma SoundWriteIsNext(c: Confirmed, w: Write)
    requires Sound(c) && Accepts(c, w.block) && Sound(Applied(c, w.block, w.marks))
    ensures w.block.height == NextHeight(c)
  {
    var d := Applied(c, w.block, w.marks);
    assert NextHeight(c) in d.blocks || NextHeight(c) > w.block.height;
    assert w.block.height > 0 ==> w.block.height - 1 in d.blocks;
  }

  /** An undo above the tip that leaves sound tables found none to undo. */
  lemma SoundUndoAbove(c: Confirmed, h: nat)
    requires Sound(c) && Sound(RolledBack(c, h)) && NextHeight(c) <= h
    ensures c.tip == None
  {
    assert h !in c.blocks;
    assert c.tip.Some? ==> c.tip.value.height in RolledBack(c, h).blocks;
  }

  /** `states` traces the clean replay of `served` and ends on `c`. */
  ghost predicate Stands(step: Step, served: Chain, states: seq<Confirmed>, c: Confirmed) {
    && Trace(step, served, states) && |states| == |served| + 1 && CleanTrace(served, states)
    && states[|served|] == c
  }

  lemma StandsAfterWrite(step: Step, served: Chain, states: seq<Confirmed>, c: Confirmed, w: Write, d: Confirmed)
    requires Lawful(step) && Stands(step, served, states, c)
    requires Accepts(c, w.block) && Picks(w.block.height, w.block.spends, w.marks) && CleanOn(c, w.block)
    requires d == Applied(c, w.block, w.marks) && Sound(d)
    ensures Stands(step, served + [LinkOf(w.block)], states + [d], d)
  {
    var n, more := |served|, served + [LinkOf(w.block)];
    TraceSound(step, served, states, n);
    SoundWriteIsNext(c, w);
    PickUnique(w.block.height, w.block.spends, w.marks);
    assert StepIs(step, c, more, n);
    LawfulIsLocal(step);
    TraceShared(step, served, more, states, n);
    assert states[..n + 1] == states;
    TraceGrows(step, more, states, d);
    forall k: nat
      ensures CleanTraceAt(more, states + [d], k)
    {
      assert CleanTraceAt(served, states, k);
    }
  }

  lemma StandsAfterUndo(step: Step, served: Chain, states: seq<Confirmed>, c: Confirmed, h: nat)
    requires Lawful(step) && Stands(step, served, states, c) && h < |served|
    ensures Stands(step, served[..h + 1], states[..h + 2], RolledBack(c, h))
  {
    var kept, cut := served[..h + 1], states[..h + 2];
    RollbackRetracesSteps(step, served, states, h, |served|);
    LawfulIsLocal(step);
    TraceShared(step, served, kept, states, h + 1);
    forall k: nat
      ensures CleanTraceAt(kept, cut, k)
    {
      assert CleanTraceAt(served, states, k);
    }
  }

  lemma StandsAfterIdleUndo(step: Step, served: Chain, states: seq<Confirmed>, c: Confirmed, h: nat)
    requires Lawful(step) && Stands(step, served, states, c) && h >= |served| && Sound(RolledBack(c, h))
    ensures RolledBack(c, h) == c
  {
    TraceSound(step, served, states, |served|);
    SoundUndoAbove(c, h);
  }

  lemma {:induction false} LogStands(step: Step, commits: seq<Confirmed>, log: seq<Change>, n: nat)
    returns (states: seq<Confirmed>)
    requires Lawful(step) && Recorded(commits, log) && AllSound(commits) && CleanLog(commits, log) && n <= |log|
    ensures Stands(step, ServedChain(log, n), states, StateAfter(commits, n))
    decreases n
  {
    if n == 0 {
      states := [EMPTY];
    } else {
      var before := LogStands(step, commits, log, n - 1);
      var served, c, d := ServedChain(log, n - 1), StateAfter(commits, n - 1), StateAfter(commits, n);
      assert RecordedAt(commits, log, n - 1) && CleanLogAt(commits, log, n - 1) && Sound(d);
      match log[n - 1] {
        case Wrote(w) =>
          StandsAfterWrite(step, served, before, c, w, d);
          states := before + [d];
        case Undid(h) =>
          if h < |served| {
            StandsAfterUndo(step, served, before, c, h);
            states := before[..h + 2];
          } else {
            StandsAfterIdleUndo(step, served, before, c, h);
            states := before;
          }
      }
    }
  }

  /**
   Whatever a node answered, however it moved and wherever passes stopped: as long as no written block re-spends,
   the tables are the replay of the blocks the index was served and has not undone.
   */
  lemma IndexIsServedReplay(step: Step, commits: seq<Confirmed>, log: seq<Change>, n: nat)
    requires Lawful(step) && Recorded(commits, log) && AllSound(commits) && CleanLog(commits, log) && n <= |log|
    ensures Replay(step, ServedChain(log, n)) == Some(StateAfter(commits, n)) && Clean(step, ServedChain(log, n))
  {
    var served := ServedChain(log, n);
    var states := LogStands(step, commits, log, n);
    TraceIsReplay(step, served, states, |served|);
    forall k: nat
      ensures CleanAt(step, served, k)
    {
      if k < |served| {
        assert CleanTraceAt(served, states, k);
        TraceIsReplay(step, served, states, k);
      }
    }
  }

  // ----- What a later pass makes of it

  /** Where a pass resumes, index and node agree on the block below, and the index is back where it stood then. */
  lemma ResumesOnServed(step: Step, served: Chain, states: seq<Confirmed>, c: Confirmed, chain: Chain)
    requires Lawful(step) && Stands(step, served, states, c) && chain != [] && SharedGenesis(served, chain)
    ensures var start := StartHeight(c, chain);
      && start <= |served| && start <= |chain| && Resumed(c, chain) == states[start]
      && (start > 0 ==> served[start - 1].hash == chain[start - 1].hash)
  {
    var n := |served|;
    TraceSound(step, served, states, n);
    if n > 0 && !(n <= |chain| && served[n - 1].hash == chain[n - 1].hash) {
      ForkExists(served, chain, c);
      RollbackRetracesSteps(step, served, states, FindFork(c, chain, n - 1).value, n);
    }
  }

  /** Applying looks only at the links from where it starts. */
  lemma {:induction false} RangeShared(step: Step, c: Confirmed, a: Chain, b: Chain, from: nat)
    requires Local(step) && |a| == |b| && from <= |a| && a[from..] == b[from..]
    ensures ApplyRange(step, c, a, from) == ApplyRange(step, c, b, from)
    decreases |a| - from
  {
    if from == |a| {
    } else {
      assert a[from] == a[from..][0] == b[from..][0] == b[from];
      assert a[from + 1..] == a[from..][1..] == b[from..][1..] == b[from + 1..];
      assert LocalAt(step, c, a, b, from);
      match step(c, a, from) {
        case None =>
        case Some(d) =>
          RangeShared(step, d, a, b, from + 1);
          RangeHead(step, c, a, from, d);
          RangeHead(step, c, b, from, d);
      }
    }
  }

  /** The served blocks a pass keeps, under the node's blocks it applies. */
  function Mixed(served: Chain, chain: Chain, start: nat): Chain
    requires start <= |served| && start <= |chain|
  {
    served[..start] + chain[start..]
  }

  lemma MixedTrace(step: Step, served: Chain, states: seq<Confirmed>, chain: Chain, start: nat)
    requires Lawful(step) && Trace(step, served, states)
    requires start <= |served| && start < |states| && start <= |chain|
    ensures var range := ApplyRange(step, states[start], chain, start);
      Trace(step, Mixed(served, chain, start), states[..start + 1] + range)
  {
    var mixed, base, c := Mixed(served, chain, start), states[..start + 1], states[start];
    LawfulIsLocal(step);
    assert mixed[..start] == served[..start] && mixed[start..] == chain[start..];
    TraceShared(step, served, mixed, states, start);
    RangeExtendsTrace(step, mixed, base, c, start);
    RangeShared(step, c, mixed, chain, start);
  }

  lemma FullTrace(step: Step, chain: Chain, base: seq<Confirmed>, range: seq<Confirmed>)
    requires Trace(step, chain, base + range) && base != [] && |base + range| == |chain| + 1
    ensures Replay(step, chain) == Some(Stopped(base[|base| - 1], range, |range|))
  {
    TraceIsReplay(step, chain, base + range, |chain|);
  }

  /** A finished pass leaves the replay of that mixture. */
  lemma PassMixes(step: Step, served: Chain, states: seq<Confirmed>, c: Confirmed, chain: Chain)
    requires Lawful(step) && Stands(step, served, states, c) && chain != [] && SharedGenesis(served, chain)
    requires Finishes(step, c, chain)
    ensures var start := StartHeight(c, chain);
      && start <= |served| && start <= |chain|
      && Replay(step, Mixed(served, chain, start)) == Some(Final(step, c, chain))
  {
    var start := StartHeight(c, chain);
    ResumesOnServed(step, served, states, c, chain);
    MixedTrace(step, served, states, chain, start);
    var base, range := states[..start + 1], ApplyRange(step, states[start], chain, start);
    assert base[start] == states[start] && |Mixed(served, chain, start)| == |chain|;
    FullTrace(step, Mixed(served, chain, start), base, range);
    FinalState(step, c, chain);
  }

  lemma SameHashesSameBlocks(served: Chain, chain: Chain, start: nat)
    requires start <= |served| && start <= |chain| && Bound(served, chain)
    requires forall k | 0 <= k < start :: served[k].hash == chain[k].hash
    ensures served[..start] == chain[..start]
  {
    forall k: nat | k < start
      ensures served[k] == chain[k]
    {
      assert BoundAt(served, chain, k);
    }
  }

  /** Two chains with one replay carry the same hashes. */
  lemma ReplayNamesChain(step: Step, a: Chain, b: Chain)
    requires Lawful(step) && Replay(step, a).Some? && Replay(step, a) == Replay(step, b) && |a| == |b|
    ensures forall k | 0 <= k < |a| :: a[k].hash == b[k].hash
  {
    ReplayCarries(step, a);
    ReplayCarries(step, b);
    forall k: nat | k < |a|
      ensures a[k].hash == b[k].hash
    {
      assert CarriesAt(Replay(step, a).value, a, |a|, k) && CarriesAt(Replay(step, b).value, b, |b|, k);
    }
  }

  lemma LinkedPrefix(chain: Chain, n: nat)
    requires Linked(chain) && n <= |chain|
    ensures Linked(chain[..n])
  {
    forall k: nat
      ensures LinkedAt(chain[..n], k)
    {
      assert LinkedAt(chain, k);
    }
  }

  lemma LinkedAgrees(served: Chain, chain: Chain, start: nat)
    requires start <= |served| && start <= |chain| && Linked(chain) && Bound(served, chain)
    requires start > 0 ==> served[start - 1].hash == chain[start - 1].hash
    requires Linked(served[..start])
    ensures served[..start] == chain[..start]
  {
    if start > 0 {
      forall k: nat
        ensures BoundAt(served[..start], chain, k)
      {
        assert BoundAt(served, chain, k);
      }
      AgreementIsDownwardClosed(served[..start], chain, start - 1);
    }
  }

  lemma MixedNamesChain(step: Step, served: Chain, chain: Chain, start: nat)
    requires Lawful(step) && Linked(chain) && Bound(served, chain) && start <= |served| && start <= |chain|
    requires Replay(step, chain).Some? && Replay(step, Mixed(served, chain, start)) == Replay(step, chain)
    ensures Linked(served[..start])
  {
    var mixed := Mixed(served, chain, start);
    ReplayNamesChain(step, mixed, chain);
    assert forall k: nat | k < start :: served[k] == mixed[k];
    SameHashesSameBlocks(served, chain, start);
    LinkedPrefix(chain, start);
  }

  lemma LinkedIffMixedIs(step: Step, served: Chain, chain: Chain, start: nat, end: Confirmed)
    requires Lawful(step) && Linked(chain) && Bound(served, chain) && start <= |served| && start <= |chain|
    requires start > 0 ==> served[start - 1].hash == chain[start - 1].hash
    requires Replay(step, Mixed(served, chain, start)) == Some(end)
    ensures Replay(step, chain) == Some(end) <==> Linked(served[..start])
  {
    if Linked(served[..start]) {
      LinkedAgrees(served, chain, start);
      assert Mixed(served, chain, start) == chain;
    }
    if Replay(step, chain) == Some(end) {
      MixedNamesChain(step, served, chain, start);
    }
  }

  /**
   Over an index that was served any blocks at all, a finished pass ends on a replay of the node's chain if and only
   if every served header below the height it resumed from names the block it was written on. A pass repairs what
   lies above the fork it finds; below it a mixture stays.
   */
  lemma LinkageIsExact(step: Step, served: Chain, c: Confirmed, chain: Chain)
    requires Lawful(step) && Replay(step, served) == Some(c) && Clean(step, served)
    requires chain != [] && Linked(chain) && Bound(served, chain) && SharedGenesis(served, chain)
    requires Finishes(step, c, chain)
    ensures StartHeight(c, chain) <= |served|
    ensures Replay(step, chain) == Some(Final(step, c, chain)) <==> Linked(served[..StartHeight(c, chain)])
  {
    var states := ReplayHasTrace(step, served, |served|);
    CleanGivesTrace(step, served, states);
    ResumesOnServed(step, served, states, c, chain);
    PassMixes(step, served, states, c, chain);
    LinkedIffMixedIs(step, served, chain, StartHeight(c, chain), Final(step, c, chain));
  }
}
