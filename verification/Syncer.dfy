/** The sync loop as it runs: a node that may move or fail at any call, and a store it writes through. */
module Syncers {
  import opened Rows
  import opened Ledger
  import opened Prepare
  import opened Stores
  import opened Sync
  import opened Convergence
  import opened Lineage

  datatype Answer<+T> = Err | Ok(value: T)

  /** One block as the node serves it. */
  datatype Served = Served(hash: Hash, block: NodeBlock, index: BlockIndex)

  /** The chain the index sees: each block with the rows it turns into at its height. */
  function Indexed(chain: seq<Served>, codec: Codec): (r: Chain)
    ensures |r| == |chain|
  {
    seq(|chain|, k requires 0 <= k < |chain| =>
      Link(chain[k].hash, chain[k].block.header.prevSideHash,
           Prepared(k, chain[k].hash, chain[k].block, chain[k].index, codec)))
  }

  /**
   The node behind its RPC. Any call may fail, and every failure is on record. A steady node answers from one
   chain; an unsteady one may swap its chain between two calls, or answer anything at all.
   */
  class Node {
    var chain: seq<Served>
    var steady: bool
    ghost var failures: nat

    constructor (chain: seq<Served>, steady: bool)
      ensures this.chain == chain && this.steady == steady
    {
      this.chain, this.steady, this.failures := chain, steady, 0;
    }

    /** The height of the tip, or None on an empty chain. */
    method TipHeight() returns (r: Answer<Option<nat>>)
      modifies this`chain, this`failures
      ensures failures == old(failures) + if r.Err? then 1 else 0
      ensures steady ==> chain == old(chain)
      ensures steady && r.Ok? ==> r.value == if chain == [] then None else Some(|chain| - 1)
    {
      if * {
        failures := failures + 1;
        return Err;
      }
      if steady {
        return Ok(if chain == [] then None else Some(|chain| - 1));
      }
      chain, r := *, *;
      if r.Err? {
        failures := failures + 1;
      }
    }

    method BlockHashAt(height: nat) returns (r: Answer<Option<Hash>>)
      modifies this`chain, this`failures
      ensures failures == old(failures) + if r.Err? then 1 else 0
      ensures steady ==> chain == old(chain)
      ensures steady && r.Ok? ==> r.value == if height < |chain| then Some(chain[height].hash) else None
    {
      if * {
        failures := failures + 1;
        return Err;
      }
      if steady {
        return Ok(if height < |chain| then Some(chain[height].hash) else None);
      }
      chain, r := *, *;
      if r.Err? {
        failures := failures + 1;
      }
    }

    /** The block and what its body does not carry, by hash. */
    method Fetch(hash: Hash) returns (r: Answer<(NodeBlock, BlockIndex)>)
      modifies this`chain, this`failures
      ensures old(failures) <= failures
      ensures r.Err? && failures == old(failures) ==> steady && forall i | 0 <= i < |chain| :: chain[i].hash != hash
      ensures steady ==> chain == old(chain)
      ensures steady && r.Ok? ==>
        exists i | 0 <= i < |chain| :: chain[i].hash == hash && r.value == (chain[i].block, chain[i].index)
    {
      if * {
        failures := failures + 1;
        return Err;
      }
      if steady {
        for i := 0 to |chain|
          invariant chain == old(chain) && failures == old(failures)
          invariant forall j | 0 <= j < i :: chain[j].hash != hash
        {
          if chain[i].hash == hash {
            return Ok((chain[i].block, chain[i].index));
          }
        }
        return Err;
      }
      chain, r := *, *;
      if r.Err? {
        failures := failures + 1;
      }
    }
  }

  /** What a steady node must promise for the commits of a pass to be determined. */
  ghost predicate Faithful(chain: seq<Served>, codec: Codec) {
    && (forall i, j :: OneBlockPerHash(chain, i, j))
    && (forall k :: SpendsDistinct(Indexed(chain, codec), k))
  }

  ghost predicate OneBlockPerHash(chain: seq<Served>, i: nat, j: nat) {
    i < |chain| && j < |chain| && chain[i].hash == chain[j].hash ==> chain[i] == chain[j]
  }

  ghost predicate SpendsDistinct(chain: Chain, k: nat) {
    Filed(chain, k) ==> DistinctSpends(chain[k].rows.value.spends)
  }

  datatype Outcome = Done | EmptyNode | Moved | Failed

  class Syncer {
    const node: Node
    const store: Store
    const codec: Codec
    /** One Apply, as the protocol lemmas see it. */
    ghost const step: Step
    /** Store calls that failed and passes that were interrupted. */
    ghost var faults: nat

    constructor (node: Node, store: Store, codec: Codec)
      ensures this.node == node && this.store == store && this.codec == codec
      ensures Lawful(step)
    {
      this.node, this.store, this.codec, this.step, this.faults := node, store, codec, ApplyAt, 0;
      new;
      ApplyAtLawful();
    }

    /** The node's chain, as rows. */
    ghost function Seen(): Chain
      reads node
    {
      Indexed(node.chain, codec)
    }

    /** Everything that went wrong so far outside the program: node calls, store calls, interruptions. */
    ghost function Troubles(): nat
      reads this`faults, node`failures
    {
      node.failures + faults
    }

    /** Whether a store call fails. It does so before it commits anything. */
    method StoreFails() returns (fails: bool)
      modifies this`faults
      ensures faults == old(faults) + if fails then 1 else 0
    {
      fails := *;
      if fails {
        faults := faults + 1;
      }
    }

    /** Whether the pass is interrupted here. */
    method Interrupted() returns (yes: bool)
      modifies this`faults
      ensures faults == old(faults) + if yes then 1 else 0
    {
      yes := *;
      if yes {
        faults := faults + 1;
      }
    }

    /** The store's record is in order and its tables are sound. */
    ghost predicate Ready()
      reads store
    {
      store.Valid() && Sound(store.Tables())
    }

    /** The store grew by `added`, and stands on the last of it. */
    twostate predicate Grew(added: seq<Confirmed>)
      reads node, store, this
    {
      && old(Troubles()) <= Troubles()
      && node.steady == old(node.steady) && (node.steady ==> node.chain == old(node.chain))
      && store.commits == old(store.commits) + added
      && store.Tables() == Stopped(old(store.Tables()), added, |added|)
    }

    /** One rollback to a height the index holds, unless the store fails. */
    method RollBackTo(height: nat) returns (ok: bool)
      requires Ready() && height in store.blocks
      modifies this`faults, store
      ensures Ready() && faults == old(faults) + if ok then 0 else 1
      ensures ok ==> store.Tables() == RolledBack(old(store.Tables()), height)
      ensures ok ==> height in store.blocks && store.commits == old(store.commits) + [store.Tables()]
      ensures ok ==> NextHeight(store.Tables()) == height + 1
      ensures !ok ==> store.Tables() == old(store.Tables()) && store.commits == old(store.commits)
    {
      var broken := StoreFails();
      if broken {
        return false;
      }
      RolledBackSound(store.Tables(), height);
      store.Rollback(height);
      return true;
    }

    /** Whether the index holds a block at a height and the node the same one. */
    method SameBlockAt(height: nat) returns (r: Answer<bool>)
      modifies node`chain, node`failures, this`faults
      ensures node.steady ==> node.chain == old(node.chain)
      ensures if r.Err? then Troubles() > old(Troubles()) else Troubles() == old(Troubles())
      ensures r == Ok(true) ==> height in store.blocks
      ensures node.steady && r.Ok? ==> (r.value <==> AgreeAt(store.Tables(), Seen(), height))
    {
      var unread := StoreFails();
      if unread {
        return Err;
      }
      var ours := store.HashAt(height);
      if ours.None? {
        return Ok(false);
      }
      var theirs := node.BlockHashAt(height);
      if theirs.Err? {
        return Err;
      }
      return Ok(theirs.value == ours);
    }

    /** Walks down until the index and the node agree on a hash; rolls back to 0 itself when they never do. */
    method FindForkHeight(from: nat) returns (r: Answer<nat>, ghost added: seq<Confirmed>)
      requires Ready() && store.tip.Some? && from == store.tip.value.height
      modifies node`chain, node`failures, this`faults, store
      ensures Grew(added) && AllSound(added) && Ready()
      ensures added == [] || added == [RolledBack(old(store.Tables()), 0)]
      ensures r.Ok? ==> r.value in store.blocks
      ensures r.Err? ==> added == [] && Troubles() > old(Troubles())
      ensures node.steady && r.Ok? ==>
        match FindFork(old(store.Tables()), Seen(), from)
        case Some(f) => r.value == f && added == []
        case None => r.value == 0 && added == [RolledBack(old(store.Tables()), 0)]
    {
      added := [];
      var height := from;
      while height > 0
        invariant 0 <= height <= from
        invariant node.steady == old(node.steady) && (node.steady ==> node.chain == old(node.chain))
        invariant Troubles() == old(Troubles())
        invariant Ready() && store.Tables() == old(store.Tables()) && store.commits == old(store.commits)
        invariant node.steady ==> FindFork(store.Tables(), Seen(), from) == FindFork(store.Tables(), Seen(), height)
      {
        var below := height - 1;
        var same := SameBlockAt(below);
        if same.Err? {
          return Err, [];
        }
        if same.value {
          return Ok(below), [];
        }
        height := below;
      }
      var undone := RollBackTo(0);
      if !undone {
        return Err, [];
      }
      return Ok(0), [store.Tables()];
    }

    /** The index and the node disagree at the tip: rolls back to where they agree and returns the next height. */
    method RollBackToFork(ghost c: Confirmed) returns (r: Answer<nat>, ghost added: seq<Confirmed>)
      requires Ready() && c == store.Tables() && store.tip.Some?
      requires node.steady ==> !TipShared(c, Seen())
      modifies node`chain, node`failures, this`faults, store
      ensures Grew(added) && AllSound(added) && Ready()
      ensures r.Ok? ==> r.value == NextHeight(store.Tables())
      ensures r.Err? ==> Troubles() > old(Troubles())
      ensures node.steady ==> added <= Rollbacks(c, Seen())
      ensures node.steady && r.Ok? ==> added == Rollbacks(c, Seen()) && r.value == StartHeight(c, Seen())
    {
      var fork;
      fork, added := FindForkHeight(store.tip.value.height);
      if fork.Err? {
        return Err, added;
      }
      var undone := RollBackTo(fork.value);
      if !undone {
        return Err, added;
      }
      SoundMore(added, store.Tables());
      added := added + [store.Tables()];
      if node.steady {
        ForkResolves(c, Seen(), fork.value, added);
      }
      return Ok(fork.value + 1), added;
    }

    /** The next height to read, after a rollback when the node reorganised under the index. */
    method ResolveStart() returns (r: Answer<nat>, ghost added: seq<Confirmed>)
      requires Ready()
      modifies node`chain, node`failures, this`faults, store
      ensures Grew(added) && AllSound(added) && Ready()
      ensures r.Ok? ==> r.value == NextHeight(store.Tables())
      ensures r.Err? ==> Troubles() > old(Troubles())
      ensures node.steady ==> added <= Rollbacks(old(store.Tables()), Seen())
      ensures node.steady && r.Ok? ==>
        added == Rollbacks(old(store.Tables()), Seen()) && r.value == StartHeight(old(store.Tables()), Seen())
    {
      added := [];
      var unread := StoreFails();
      if unread {
        return Err, [];
      }
      var tip := store.CurrentTip();
      if tip.None? {
        return Ok(0), [];
      }
      var theirs := node.BlockHashAt(tip.value.height);
      if theirs.Err? {
        return Err, [];
      }
      if theirs.value == Some(tip.value.hash) {
        return Ok(tip.value.height + 1), [];
      }
      r, added := RollBackToFork(store.Tables());
    }

    /** The rows of the block at a height, or None when the node no longer holds one there. */
    method ReadRows(height: nat) returns (r: Answer<Option<Block>>)
      modifies node`chain, node`failures
      ensures node.steady ==> node.chain == old(node.chain)
      ensures old(Troubles()) <= Troubles()
      ensures r.Ok? && r.value.Some? ==> r.value.value.height == height
      ensures node.steady && height < |node.chain| && Faithful(node.chain, codec) ==>
        if r.Ok? then r.value.Some? && r.value == Seen()[height].rows
        else Troubles() > old(Troubles()) || Seen()[height].rows == None
      ensures node.steady && height < |node.chain| ==> r != Ok(None)
    {
      var hash := node.BlockHashAt(height);
      if hash.Err? {
        return Err;
      }
      if hash.value.None? {
        return Ok(None);
      }
      var fetched := node.Fetch(hash.value.value);
      if fetched.Err? {
        return Err;
      }
      if node.steady && height < |node.chain| && Faithful(node.chain, codec) {
        Fetched(node.chain, height, hash.value.value, fetched.value.0, fetched.value.1);
      }
      var rows := PrepareBlock(height, hash.value.value, fetched.value.0, fetched.value.1, codec);
      if rows.None? {
        return Err;
      }
      return Ok(rows);
    }

    /** Reads and writes one block; false when the node no longer holds one at that height. */
    method ApplyHeight(height: nat) returns (r: Answer<bool>, ghost added: seq<Confirmed>)
      requires Lawful(step) && Ready() && height == NextHeight(store.Tables())
      modifies node`chain, node`failures, this`faults, store
      ensures Grew(added) && Ready()
      ensures r == Ok(true) ==> |added| == 1 && NextHeight(store.Tables()) == height + 1
      ensures r != Ok(true) ==> added == []
      ensures node.steady && height < |node.chain| ==> r != Ok(false)
      ensures node.steady && height < |node.chain| && Faithful(node.chain, codec) && r == Ok(true) ==>
        step(old(store.Tables()), Seen(), height) == Some(added[0])
      ensures node.steady && height < |node.chain| && Faithful(node.chain, codec) && r.Err? ==>
        Troubles() > old(Troubles()) || step(old(store.Tables()), Seen(), height) == None
    {
      added := [];
      ghost var before := store.Tables();
      var rows := ReadRows(height);
      ghost var known := node.steady && height < |node.chain| && Faithful(node.chain, codec);
      if rows.Err? {
        if known {
          StepMissing(step, before, Seen(), height);
        }
        return Err, [];
      }
      if rows.value.None? {
        return Ok(false), [];
      }
      var broken := StoreFails();
      if broken {
        return Err, [];
      }
      var ok := WriteRows(rows.value.value);
      if !ok {
        if known {
          StepMissing(step, before, Seen(), height);
        }
        return Err, [];
      }
      if known {
        StepTaken(step, before, node.chain, codec, height, rows.value.value, store.Tables());
      }
      return Ok(true), [store.Tables()];
    }

    /** Hands one block's rows to the store. With distinct spends there is only one state it can commit. */
    method WriteRows(b: Block) returns (ok: bool)
      requires Ready() && b.height == NextHeight(store.Tables())
      modifies store
      ensures ok <==> Accepts(old(store.Tables()), b)
      ensures Ready()
      ensures !ok ==> store.Tables() == old(store.Tables()) && store.commits == old(store.commits)
      ensures ok ==> NextHeight(store.Tables()) == b.height + 1
      ensures ok ==> store.commits == old(store.commits) + [store.Tables()]
      ensures ok && DistinctSpends(b.spends) ==> store.Tables() == Applied(old(store.Tables()), b, WriteOf(b).marks)
    {
      ghost var before := store.Tables();
      var unknown;
      ghost var marks;
      unknown, marks := store.Apply(b);
      ok := unknown.Some?;
      if ok {
        AppliedSound(before, b, marks);
        if DistinctSpends(b.spends) {
          PickUnique(b.height, b.spends, marks);
        }
      }
    }

    /** Applying from `next` on top of `c` has committed `range` so far. */
    ghost predicate Applying(c: Confirmed, before: seq<Confirmed>, chain: seq<Served>, next: nat, range: seq<Confirmed>)
      reads node, store
    {
      && store.commits == before + range
      && store.Tables() == Stopped(c, range, |range|)
      && AllSound(range) && Ready()
      && NextHeight(store.Tables()) == next + |range|
      && (node.steady ==> node.chain == chain)
      && (node.steady && Faithful(chain, codec) ==>
            Reached(step, c, Indexed(chain, codec), next, range, store.Tables()))
    }

    /** The tables take no step at `height` of the chain: its block is unreadable there, or refused. */
    ghost predicate Stuck(chain: seq<Served>, height: nat)
      reads store
    {
      step(store.Tables(), Indexed(chain, codec), height) == None
    }

    /** One more height of a pass. */
    method ApplyNext(
      ghost c: Confirmed, ghost before: seq<Confirmed>, ghost chain: seq<Served>, ghost next: nat, height: nat,
      ghost range: seq<Confirmed>)
      returns (r: Answer<bool>, ghost range': seq<Confirmed>)
      requires Lawful(step) && Applying(c, before, chain, next, range) && height == next + |range|
      requires node.steady ==> height < |chain|
      modifies node`chain, node`failures, this`faults, store
      ensures node.steady == old(node.steady) && Applying(c, before, chain, next, range')
      ensures if r == Ok(true) then |range'| == |range| + 1 else range' == range
      ensures old(Troubles()) <= Troubles() && (node.steady ==> r != Ok(false))
      ensures node.steady && Faithful(chain, codec) && r.Err? ==> Troubles() > old(Troubles()) || Stuck(chain, height)
    {
      ghost var last := store.Tables();
      ghost var one;
      r, one := ApplyHeight(height);
      range' := range;
      if r == Ok(true) {
        range' := range + [one[0]];
        SoundMore(range, one[0]);
        if node.steady && Faithful(chain, codec) {
          ReachedNext(step, c, Indexed(chain, codec), next, range, last, one[0]);
        }
      }
    }

    /** Applies heights `next` to `top` in order, until one fails or the node has moved. */
    method ApplyUpTo(next: nat, top: nat) returns (r: Outcome, ghost range: seq<Confirmed>)
      requires Lawful(step) && Ready() && next == NextHeight(store.Tables())
      requires node.steady ==> top < |node.chain|
      modifies node`chain, node`failures, this`faults, store
      ensures node.steady == old(node.steady)
      ensures Applying(old(store.Tables()), old(store.commits), old(node.chain), next, range)
      ensures r != EmptyNode && (r == Done ==> next + |range| > top)
      ensures old(Troubles()) <= Troubles()
      ensures node.steady && Faithful(old(node.chain), codec) && Troubles() == old(Troubles()) && r != Done ==>
        next + |range| <= top && Stuck(old(node.chain), next + |range|)
    {
      range := [];
      var height := next;
      while height <= top
        invariant node.steady == old(node.steady) && height == next + |range| && old(Troubles()) <= Troubles()
        invariant Applying(old(store.Tables()), old(store.commits), old(node.chain), next, range)
        decreases if height <= top then top + 1 - height else 0
      {
        var applied;
        applied, range := ApplyNext(old(store.Tables()), old(store.commits), old(node.chain), next, height, range);
        if applied.Err? {
          return Failed, range;
        }
        if !applied.value {
          return Moved, range;
        }
        height := height + 1;
        var stop := Interrupted();
        if stop {
          return Failed, range;
        }
      }
      return Done, range;
    }

    /** The rest of a pass that began on `c` with `commits` made, and has rolled back through `backs`. */
    method ApplyAbove(
      ghost commits: seq<Confirmed>, ghost c: Confirmed, ghost backs: seq<Confirmed>, next: nat, top: nat)
      returns (r: Outcome, ghost added: seq<Confirmed>)
      requires Lawful(step) && Ready() && next == NextHeight(store.Tables())
      requires AllSound(backs) && store.Tables() == Stopped(c, backs, |backs|) && store.commits == commits + backs
      requires node.steady ==>
        top == |node.chain| - 1 && backs == Rollbacks(c, Seen()) && next == StartHeight(c, Seen())
      modifies node`chain, node`failures, this`faults, store
      ensures old(Troubles()) <= Troubles()
      ensures node.steady == old(node.steady) && (node.steady ==> node.chain == old(node.chain))
      ensures store.Tables() == Stopped(c, added, |added|) && store.commits == commits + added
      ensures AllSound(added) && Ready()
      ensures r != EmptyNode
      ensures node.steady && Faithful(node.chain, codec) ==>
        && added <= Commits(step, c, Seen())
        && (r == Done ==> added == Commits(step, c, Seen()) && Finishes(step, c, Seen()))
        && (Troubles() == old(Troubles()) ==> (r == Done <==> Finishes(step, c, Seen())))
    {
      ghost var base := store.Tables();
      ghost var range;
      r, range := ApplyUpTo(next, top);
      added := backs + range;
      GrewTwice(commits, c, backs, range);
      if node.steady && Faithful(node.chain, codec) {
        PassEnds(step, c, Seen(), backs, base, range, store.Tables(), r == Done, Troubles() == old(Troubles()));
      }
    }

    /** Rolls back where the node reorganised, then applies up to `top`. */
    method WalkTo(top: nat) returns (r: Outcome, ghost added: seq<Confirmed>)
      requires Lawful(step) && Ready() && (node.steady ==> top == |node.chain| - 1)
      modifies node`chain, node`failures, this`faults, store
      ensures Grew(added) && AllSound(added) && Ready()
      ensures r != EmptyNode
      ensures node.steady && Faithful(node.chain, codec) ==>
        && added <= Commits(step, old(store.Tables()), Seen())
        && (r == Done ==> added == Commits(step, old(store.Tables()), Seen()))
        && (r == Done ==> Finishes(step, old(store.Tables()), Seen()))
        && (Troubles() == old(Troubles()) ==> (r == Done <==> Finishes(step, old(store.Tables()), Seen())))
    {
      ghost var before := store.Tables();
      var next;
      ghost var backs;
      next, backs := ResolveStart();
      if next.Err? {
        if node.steady {
          PassBegins(step, before, Seen(), backs);
        }
        return Failed, backs;
      }
      r, added := ApplyAbove(old(store.commits), before, backs, next.value, top);
    }

    /** Walks from the index tip to the node tip one time. */
    method Once() returns (r: Outcome, ghost added: seq<Confirmed>)
      requires Lawful(step) && Ready()
      modifies node`chain, node`failures, this`faults, store
      ensures Grew(added) && AllSound(added) && Ready()
      ensures node.steady && Faithful(node.chain, codec) ==> added <= Commits(step, old(store.Tables()), Seen())
      ensures node.steady && Faithful(node.chain, codec) && r == Done ==>
        && node.chain != [] && added == Commits(step, old(store.Tables()), Seen())
        && Finishes(step, old(store.Tables()), Seen())
      ensures r == EmptyNode && node.steady ==> node.chain == []
      ensures node.steady && Faithful(node.chain, codec) && node.chain != [] && Troubles() == old(Troubles()) ==>
        (r == Done <==> Finishes(step, old(store.Tables()), Seen()))
    {
      var top := node.TipHeight();
      if top.Err? {
        return Failed, [];
      }
      if top.value.None? {
        return EmptyNode, [];
      }
      r, added := WalkTo(top.value.value);
    }

    /**
     The loop against any node at all, from a store nothing was written to. The tables stay sound, and while no
     written block re-spends they are the replay of the blocks the node served and the loop has not undone.
     */
    method Run(passes: nat) returns (outcomes: seq<Outcome>)
      requires Lawful(step) && store.Valid() && store.commits == []
      modifies node`chain, node`failures, this`faults, store
      ensures |outcomes| == passes && Ready() && AllSound(store.commits)
      ensures CleanLog(store.commits, store.log) ==>
        Replay(step, ServedChain(store.log, |store.log|)) == Some(store.Tables())
    {
      outcomes := [];
      EmptySound();
      while |outcomes| < passes
        invariant |outcomes| <= passes && Ready() && AllSound(store.commits)
        decreases passes - |outcomes|
      {
        var outcome;
        ghost var added;
        outcome, added := Once();
        outcomes := outcomes + [outcome];
      }
      if CleanLog(store.commits, store.log) {
        IndexIsServedReplay(step, store.commits, store.log, |store.log|);
      }
    }

    /**
     Follows a node that holds `chains[i]` during pass `i`, from an empty index. Each pass may fail at any
     call and is simply tried again by the next. A last pass in which nothing fails ends on a replay of the node's
     chain, whatever came before, if the chain can be replayed at all.
     */
    method Follow(chains: seq<seq<Served>>)
      returns (outcomes: seq<Outcome>, ghost passes: seq<Pass>, ghost troubles: seq<nat>)
      requires Lawful(step) && store.Valid() && store.Tables() == EMPTY && node.steady
      requires Family(step, AllIndexed(chains, codec))
      requires forall i | 0 <= i < |chains| :: Faithful(chains[i], codec)
      modifies node`chain, node`failures, this`faults, store
      ensures |outcomes| == |chains| && ChainsOf(passes) == AllIndexed(chains, codec)
      ensures Ready() && store.Tables() == RunResult(step, passes)
      ensures OnSomePrefix(step, store.Tables(), passes)
      ensures chains != [] && outcomes[|chains| - 1] == Done ==>
        Replay(step, Indexed(chains[|chains| - 1], codec)) == Some(store.Tables())
      ensures |troubles| == |chains| + 1 && troubles[0] == old(Troubles()) && troubles[|chains|] == Troubles()
      ensures chains != [] && troubles[|chains| - 1] == troubles[|chains|] ==>
        (outcomes[|chains| - 1] == Done <==> Replay(step, Indexed(chains[|chains| - 1], codec)).Some?)
    {
      outcomes, passes, troubles := [], [], [Troubles()];
      EmptySound();
      ghost var views := AllIndexed(chains, codec);
      for i := 0 to |chains|
        invariant node.steady && Ready()
        invariant |outcomes| == |passes| == i && ChainsOf(passes) == views[..i]
        invariant store.Tables() == RunResult(step, passes) && OnSomePrefix(step, store.Tables(), passes)
        invariant i > 0 && outcomes[i - 1] == Done ==>
          Replay(step, Indexed(chains[i - 1], codec)) == Some(store.Tables())
        invariant |troubles| == i + 1 && troubles[0] == old(Troubles()) && troubles[i] == Troubles()
        invariant i > 0 && troubles[i - 1] == troubles[i] ==>
          (outcomes[i - 1] == Done <==> Replay(step, Indexed(chains[i - 1], codec)).Some?)
      {
        node.chain := chains[i];
        PassFinishes(step, passes, views[i], views);
        var outcome;
        ghost var added;
        outcome, added := Once();
        ghost var p := Pass(views[i], |added|);
        OneMorePass(step, passes, p, added, views);
        outcomes, passes, troubles := outcomes + [outcome], passes + [p], troubles + [Troubles()];
      }
    }
  }

  function AllIndexed(chains: seq<seq<Served>>, codec: Codec): (r: seq<Chain>)
    ensures |r| == |chains|
  {
    seq(|chains|, i requires 0 <= i < |chains| => Indexed(chains[i], codec))
  }

  /** The node holds the block the index has at its tip. */
  predicate TipShared(c: Confirmed, chain: Chain) {
    c.tip.Some? && c.tip.value.height < |chain| && chain[c.tip.value.height].hash == c.tip.value.hash
  }

  lemma GrewTwice(commits: seq<Confirmed>, c: Confirmed, a: seq<Confirmed>, b: seq<Confirmed>)
    ensures commits + a + b == commits + (a + b)
    ensures Stopped(c, a + b, |a + b|) == Stopped(Stopped(c, a, |a|), b, |b|)
    ensures AllSound(a) && AllSound(b) ==> AllSound(a + b)
  {
  }

  /** What a pass rolls back once it has looked for a fork, and where it starts then. */
  lemma ForkResolves(c: Confirmed, chain: Chain, fork: nat, added: seq<Confirmed>)
    requires c.tip.Some? && !TipShared(c, chain)
    requires match FindFork(c, chain, c.tip.value.height)
      case Some(f) => fork == f && added == [RolledBack(c, f)]
      case None => fork == 0 && added == [RolledBack(c, 0), RolledBack(RolledBack(c, 0), 0)]
    ensures added == Rollbacks(c, chain) && fork + 1 == StartHeight(c, chain)
  {
  }

  /** Applying from `from` has gone through the states `range` and stands on `d`. */
  ghost predicate Reached(step: Step, c: Confirmed, chain: Chain, from: nat, range: seq<Confirmed>, d: Confirmed) {
    range + ApplyRange(step, d, chain, from + |range|) == ApplyRange(step, c, chain, from)
  }

  lemma ReachedNext(
    step: Step, c: Confirmed, chain: Chain, from: nat, range: seq<Confirmed>, d: Confirmed, e: Confirmed)
    requires Reached(step, c, chain, from, range, d)
    requires from + |range| < |chain| && step(d, chain, from + |range|) == Some(e)
    ensures Reached(step, c, chain, from, range + [e], e)
  {
  }

  /** The rollbacks of a pass and what it has applied since are the first of its commits, and all of them at the end. */
  lemma CommitsReached(step: Step, c: Confirmed, chain: Chain, base: Confirmed, range: seq<Confirmed>, d: Confirmed)
    requires chain != [] && base == Resumed(c, chain)
    requires Reached(step, base, chain, StartHeight(c, chain), range, d)
    ensures Rollbacks(c, chain) + range <= Commits(step, c, chain)
    ensures StartHeight(c, chain) + |range| >= |chain| ==>
      Rollbacks(c, chain) + range == Commits(step, c, chain) && Finishes(step, c, chain)
  {
    var tail := ApplyRange(step, d, chain, StartHeight(c, chain) + |range|);
    assert Commits(step, c, chain) == Rollbacks(c, chain) + range + tail;
    assert StartHeight(c, chain) + |range| >= |chain| ==> tail == [];
  }

  lemma SoundMore(states: seq<Confirmed>, c: Confirmed)
    requires AllSound(states) && Sound(c)
    ensures AllSound(states + [c])
  {
  }

  lemma StepTaken(step: Step, c: Confirmed, served: seq<Served>, codec: Codec, k: nat, b: Block, d: Confirmed)
    requires Lawful(step) && Faithful(served, codec) && k < |served|
    requires Prepared(k, served[k].hash, served[k].block, served[k].index, codec) == Some(b) && Accepts(c, b)
    requires DistinctSpends(b.spends) ==> d == Applied(c, b, WriteOf(b).marks)
    ensures step(c, Indexed(served, codec), k) == Some(d)
  {
    var chain := Indexed(served, codec);
    assert chain[k].rows == Some(b);
    assert SpendsDistinct(chain, k);
    assert StepIs(step, c, chain, k);
  }

  /** A block that cannot be read, or that the store refuses, is no step. */
  lemma StepMissing(step: Step, c: Confirmed, chain: Chain, k: nat)
    requires Lawful(step) && k < |chain|
    ensures chain[k].rows == None || !Accepts(c, chain[k].rows.value) ==> step(c, chain, k) == None
  {
    assert StepIs(step, c, chain, k);
  }

  /** Where a step is missing the applying stops for good, short of the tip. */
  lemma StuckIsShort(step: Step, c: Confirmed, chain: Chain, base: Confirmed, range: seq<Confirmed>, d: Confirmed)
    requires base == Resumed(c, chain) && Reached(step, base, chain, StartHeight(c, chain), range, d)
    requires var k := StartHeight(c, chain) + |range|; k < |chain| && step(d, chain, k) == None
    ensures !Finishes(step, c, chain)
  {
    var tail := ApplyRange(step, d, chain, StartHeight(c, chain) + |range|);
    assert tail == [] && range + tail == range;
  }

  lemma PassBegins(step: Step, c: Confirmed, chain: Chain, backs: seq<Confirmed>)
    requires chain != [] && backs <= Rollbacks(c, chain)
    ensures backs <= Commits(step, c, chain)
  {
  }

  /** A pass commits its first commits, all of them when done; undisturbed, it is done or stuck. */
  lemma PassEnds(
    step: Step, c: Confirmed, chain: Chain, backs: seq<Confirmed>, base: Confirmed, range: seq<Confirmed>,
    d: Confirmed, done: bool, calm: bool)
    requires chain != [] && backs == Rollbacks(c, chain) && base == Stopped(c, backs, |backs|)
    requires Reached(step, base, chain, StartHeight(c, chain), range, d)
    requires var k := StartHeight(c, chain) + |range|;
      (done ==> k >= |chain|) && (calm && !done ==> k < |chain| && step(d, chain, k) == None)
    ensures backs + range <= Commits(step, c, chain)
    ensures done ==> backs + range == Commits(step, c, chain) && Finishes(step, c, chain)
    ensures calm && !done ==> !Finishes(step, c, chain)
  {
    CommitsReached(step, c, chain, base, range, d);
    if calm && !done {
      StuckIsShort(step, c, chain, base, range, d);
    }
  }

  /** In an honest run the next pass finishes exactly when its chain can be replayed. */
  lemma PassFinishes(step: Step, passes: seq<Pass>, chain: Chain, chains: seq<Chain>)
    requires Lawful(step)
    requires |passes| < |chains| && ChainsOf(passes) == chains[..|passes|] && chain == chains[|passes|]
    requires Family(step, chains) && OnSomePrefix(step, RunResult(step, passes), passes)
    ensures Finishes(step, RunResult(step, passes), chain) <==> Replay(step, chain).Some?
  {
    var p := Pass(chain, 0);
    var all := passes + [p];
    assert all[..|passes|] == passes;
    ChainsSnoc(passes, p, chains);
    FamilyPrefix(step, chains, |all|);
    var _ := LastPass(step, all);
  }

  lemma OneMorePass(step: Step, passes: seq<Pass>, p: Pass, added: seq<Confirmed>, chains: seq<Chain>)
    requires Lawful(step)
    requires |passes| < |chains| && ChainsOf(passes) == chains[..|passes|] && p.chain == chains[|passes|]
    requires Family(step, chains) && OnSomePrefix(step, RunResult(step, passes), passes)
    requires added <= Commits(step, RunResult(step, passes), p.chain) && p.commits == |added|
    ensures ChainsOf(passes + [p]) == chains[..|passes| + 1]
    ensures RunResult(step, passes + [p]) == Stopped(RunResult(step, passes), added, |added|)
    ensures OnSomePrefix(step, RunResult(step, passes + [p]), passes + [p])
    ensures var c := RunResult(step, passes);
      added == Commits(step, c, p.chain) && Finishes(step, c, p.chain) ==>
        Replay(step, p.chain) == Some(RunResult(step, passes + [p]))
  {
    var all := passes + [p];
    assert all[..|passes|] == passes;
    ChainsSnoc(passes, p, chains);
    FamilyPrefix(step, chains, |all|);
    CutShort(step, RunResult(step, passes), p, added);
    var _ := LastPass(step, all);
  }

  lemma ChainsSnoc(passes: seq<Pass>, p: Pass, chains: seq<Chain>)
    requires |passes| < |chains| && ChainsOf(passes) == chains[..|passes|] && p.chain == chains[|passes|]
    ensures ChainsOf(passes + [p]) == chains[..|passes| + 1]
  {
  }

  lemma CutShort(step: Step, c: Confirmed, p: Pass, added: seq<Confirmed>)
    requires added <= Commits(step, c, p.chain) && p.commits == |added|
    ensures PassResult(step, c, p) == Stopped(c, added, |added|)
  {
  }

  lemma Fetched(chain: seq<Served>, height: nat, hash: Hash, block: NodeBlock, index: BlockIndex)
    requires height < |chain| && chain[height].hash == hash && forall i, j :: OneBlockPerHash(chain, i, j)
    requires exists i | 0 <= i < |chain| :: chain[i].hash == hash && (block, index) == (chain[i].block, chain[i].index)
    ensures block == chain[height].block && index == chain[height].index
  {
    var i :| 0 <= i < |chain| && chain[i].hash == hash && (block, index) == (chain[i].block, chain[i].index);
    assert OneBlockPerHash(chain, i, height);
  }
}
