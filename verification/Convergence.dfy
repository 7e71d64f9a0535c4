/** Where sync passes lead: convergence, path independence, and the exact role of a shared genesis. */
module Convergence {
  import opened Rows
  import opened Ledger
  import opened Sync

  /** What a node promises about the chain the index follows and the one it holds now. */
  ghost predicate Compatible(a: Chain, b: Chain) {
    Linked(a) && Linked(b) && Bound(a, b)
  }

  /** Applying a chain from where a trace of it stands extends the trace. */
  lemma {:induction false} RangeExtendsTrace(step: Step, chain: Chain, states: seq<Confirmed>, c: Confirmed, from: nat)
    requires Trace(step, chain, states) && |states| == from + 1 && states[from] == c
    ensures Trace(step, chain, states + ApplyRange(step, c, chain, from))
    decreases |chain| - from
  {
    if from < |chain| && step(c, chain, from).Some? {
      var d := step(c, chain, from).value;
      TraceGrows(step, chain, states, d);
      RangeExtendsTrace(step, chain, states + [d], d, from + 1);
      RangeHead(step, c, chain, from, d);
      assert states + [d] + ApplyRange(step, d, chain, from + 1) == states + ApplyRange(step, c, chain, from);
    } else {
      assert states + ApplyRange(step, c, chain, from) == states;
    }
  }

  /** And on a chain that can be replayed at all it runs through the whole rest of the trace. */
  lemma {:induction false} RangeIsRestOfTrace(step: Step, chain: Chain, full: seq<Confirmed>, from: nat)
    requires Trace(step, chain, full) && |full| == |chain| + 1 && from <= |chain|
    ensures ApplyRange(step, full[from], chain, from) == full[from + 1..]
    decreases |chain| - from
  {
    if from >= |chain| {
    } else {
      assert TraceAt(step, chain, full, from);
      RangeIsRestOfTrace(step, chain, full, from + 1);
      RangeHead(step, full[from], chain, from, full[from + 1]);
    }
  }

  lemma {:induction false} TracesAgree(step: Step, chain: Chain, a: seq<Confirmed>, b: seq<Confirmed>, m: nat)
    requires Trace(step, chain, a) && Trace(step, chain, b) && m < |a| && m < |b|
    ensures a[m] == b[m]
    decreases m
  {
    if m == 0 {
    } else {
      TracesAgree(step, chain, a, b, m - 1);
      assert TraceAt(step, chain, a, m - 1) && TraceAt(step, chain, b, m - 1);
    }
  }

  /** After its rollback, if any, a pass stands on a trace of the node's chain. */
  lemma ResumesOnTrace(step: Step, prior: Chain, states: seq<Confirmed>, chain: Chain)
    requires Lawful(step)
    requires Trace(step, prior, states) && |states| == |prior| + 1 && CleanTrace(prior, states) && chain != []
    requires Compatible(prior, chain) && SharedGenesis(prior, chain)
    ensures var c := states[|prior|]; var start := StartHeight(c, chain);
      && start <= |chain| && start <= |prior|
      && Trace(step, chain, states[..start + 1]) && Resumed(c, chain) == states[start]
      && (forall d | d in Rollbacks(c, chain) :: d == states[start])
  {
    var n, c := |prior|, states[|prior|];
    LawfulIsLocal(step);
    TraceSound(step, prior, states, n);
    if n == 0 {
      TraceShared(step, prior, chain, states, 0);
    } else if n <= |chain| && prior[n - 1].hash == chain[n - 1].hash {
      AgreementIsDownwardClosed(prior, chain, n - 1);
      TraceShared(step, prior, chain, states, n);
    } else {
      ForkIsShared(prior, chain, c);
      var f := FindFork(c, chain, n - 1).value;
      RollbackRetracesSteps(step, prior, states, f, n);
      TraceShared(step, prior, chain, states, f + 1);
    }
  }

  ghost predicate IsPrefixReplay(step: Step, c: Confirmed, chain: Chain) {
    exists m | 0 <= m <= |chain| :: ReplayTo(step, chain, m) == Some(c)
  }

  lemma TracedIsPrefixReplay(step: Step, chain: Chain, states: seq<Confirmed>, m: nat)
    requires Trace(step, chain, states) && m < |states|
    ensures IsPrefixReplay(step, states[m], chain)
  {
    TraceIsReplay(step, chain, states, m);
  }

  lemma FinalState(step: Step, c: Confirmed, chain: Chain)
    requires chain != []
    ensures var r := ApplyRange(step, Resumed(c, chain), chain, StartHeight(c, chain));
      Final(step, c, chain) == Stopped(Resumed(c, chain), r, |r|)
  {
  }

  /** The states a pass commits, and the one it ends on, all lie on one trace of the node's chain. */
  lemma PassTrace(step: Step, prior: Chain, states: seq<Confirmed>, chain: Chain) returns (trace: seq<Confirmed>)
    requires Lawful(step)
    requires Trace(step, prior, states) && |states| == |prior| + 1 && CleanTrace(prior, states) && chain != []
    requires Compatible(prior, chain) && SharedGenesis(prior, chain)
    ensures var c := states[|prior|];
      && Trace(step, chain, trace) && (forall d | d in Commits(step, c, chain) :: d in trace)
      && Final(step, c, chain) == trace[|trace| - 1] && (Finishes(step, c, chain) <==> |trace| == |chain| + 1)
  {
    var c := states[|prior|];
    var start := StartHeight(c, chain);
    ResumesOnTrace(step, prior, states, chain);
    RangeExtendsTrace(step, chain, states[..start + 1], states[start], start);
    trace := states[..start + 1] + ApplyRange(step, states[start], chain, start);
    assert states[..start + 1][start] == states[start];
    FinalState(step, c, chain);
  }

  lemma TraceReaches(step: Step, chain: Chain, trace: seq<Confirmed>, from: nat)
    requires Trace(step, chain, trace) && from < |trace|
    requires trace == trace[..from + 1] + ApplyRange(step, trace[from], chain, from)
    ensures Replay(step, chain).Some? <==> |trace| == |chain| + 1
    ensures |trace| == |chain| + 1 ==> Replay(step, chain) == Some(trace[|chain|])
  {
    if |trace| == |chain| + 1 {
      TraceIsReplay(step, chain, trace, |chain|);
    }
    if Replay(step, chain).Some? {
      var full := ReplayHasTrace(step, chain, |chain|);
      TracesAgree(step, chain, trace, full, from);
      RangeIsRestOfTrace(step, chain, full, from);
    }
  }

  lemma RestReaches(step: Step, chain: Chain, base: seq<Confirmed>, c: Confirmed, start: nat)
    requires Trace(step, chain, base) && |base| == start + 1 && base[start] == c
    ensures var range := ApplyRange(step, c, chain, start);
      && (Replay(step, chain).Some? <==> start + |range| >= |chain|)
      && (start + |range| >= |chain| ==> Replay(step, chain) == Some(Stopped(c, range, |range|)))
  {
    var trace := base + ApplyRange(step, c, chain, start);
    RangeExtendsTrace(step, chain, base, c, start);
    assert trace[..start + 1] == base && trace[start] == c;
    TraceReaches(step, chain, trace, start);
  }

  /** A pass that stands on the trace reaches the node's tip exactly when the chain can be replayed. */
  lemma PassReaches(step: Step, prior: Chain, states: seq<Confirmed>, chain: Chain)
    requires Lawful(step)
    requires Trace(step, prior, states) && |states| == |prior| + 1 && CleanTrace(prior, states) && chain != []
    requires Compatible(prior, chain) && SharedGenesis(prior, chain)
    ensures var c := states[|prior|];
      && (Finishes(step, c, chain) <==> Replay(step, chain).Some?)
      && (Finishes(step, c, chain) ==> Replay(step, chain) == Some(Final(step, c, chain)))
  {
    var c := states[|prior|];
    var start := StartHeight(c, chain);
    ResumesOnTrace(step, prior, states, chain);
    RestReaches(step, chain, states[..start + 1], states[start], start);
    FinalState(step, c, chain);
  }

  /**
   One pass over a fixed chain sharing genesis with the indexed one. Every state it commits is a replay of
   a prefix of the node's chain; it gets to the end exactly when the chain can be replayed at all; and then
   the index equals a replay from nothing.
   */
  lemma PassConverges(step: Step, prior: Chain, c: Confirmed, chain: Chain)
    requires Lawful(step)
    requires Replay(step, prior) == Some(c) && Clean(step, prior) && chain != []
    requires Compatible(prior, chain) && SharedGenesis(prior, chain)
    ensures forall d | d in Commits(step, c, chain) :: IsPrefixReplay(step, d, chain)
    ensures Finishes(step, c, chain) <==> Replay(step, chain).Some?
    ensures Finishes(step, c, chain) ==> Replay(step, chain) == Some(Final(step, c, chain))
  {
    var states := ReplayHasTrace(step, prior, |prior|);
    CleanGivesTrace(step, prior, states);
    PassReaches(step, prior, states, chain);
    var trace := PassTrace(step, prior, states, chain);
    forall d | d in Commits(step, c, chain)
      ensures IsPrefixReplay(step, d, chain)
    {
      var m :| 0 <= m < |trace| && trace[m] == d;
      TracedIsPrefixReplay(step, chain, trace, m);
    }
  }

  // ----- When genesis differs

  lemma {:induction false} RangeKeepsGenesis(step: Step, c: Confirmed, chain: Chain, from: nat)
    requires Lawful(step)
    requires from > 0 && 0 in c.blocks
    ensures forall d | d in ApplyRange(step, c, chain, from) :: 0 in d.blocks && d.blocks[0] == c.blocks[0]
    decreases |chain| - from
  {
    if from >= |chain| {
    } else {
      match step(c, chain, from) {
        case None =>
        case Some(d) =>
          assert StepIs(step, c, chain, from);
          RangeHead(step, c, chain, from, d);
          RangeKeepsGenesis(step, d, chain, from + 1);
      }
    }
  }

  lemma NoForkWithoutGenesis(prior: Chain, c: Confirmed, chain: Chain)
    requires Carries(c, prior, |prior|) && prior != [] && chain != []
    requires Compatible(prior, chain) && !SharedGenesis(prior, chain)
    ensures FindFork(c, chain, |prior| - 1) == None
    ensures |prior| <= |chain| ==> prior[|prior| - 1].hash != chain[|prior| - 1].hash
  {
    ForkIsGreatest(c, chain, |prior| - 1);
    if |prior| <= |chain| {
      AgreementReachesGenesis(prior, chain, |prior| - 1);
    }
    match FindFork(c, chain, |prior| - 1) {
      case None =>
      case Some(f) =>
        assert CarriesAt(c, prior, |prior|, f);
        AgreementReachesGenesis(prior, chain, f);
    }
  }

  lemma AgreementReachesGenesis(a: Chain, b: Chain, k: nat)
    requires Compatible(a, b) && k < |a| && k < |b|
    ensures a[k].hash == b[k].hash ==> a[0].hash == b[0].hash
  {
    if a[k].hash == b[k].hash {
      AgreementIsDownwardClosed(a, b, k);
      assert a[..k + 1][0] == b[..k + 1][0];
    }
  }

  /** When genesis differs the indexed genesis block survives every pass. */
  lemma ForeignGenesisSurvives(step: Step, prior: Chain, c: Confirmed, chain: Chain)
    requires Lawful(step)
    requires Replay(step, prior) == Some(c) && prior != [] && chain != []
    requires Compatible(prior, chain) && !SharedGenesis(prior, chain)
    ensures 0 in Final(step, c, chain).blocks && Final(step, c, chain).blocks[0].hash == prior[0].hash
  {
    ReplayCarries(step, prior);
    NoForkWithoutGenesis(prior, c, chain);
    assert CarriesAt(c, prior, |prior|, 0);
    assert Resumed(c, chain) == RolledBack(RolledBack(c, 0), 0);
    RangeKeepsGenesis(step, Resumed(c, chain), chain, 1);
    FinalState(step, c, chain);
  }

  lemma ReplayCarries(step: Step, chain: Chain)
    requires Lawful(step)
    requires Replay(step, chain).Some?
    ensures Carries(Replay(step, chain).value, chain, |chain|)
  {
    var states := ReplayHasTrace(step, chain, |chain|);
    TraceSound(step, chain, states, |chain|);
  }

  /** A finished pass ends on a replay of the node's chain if and only if the two chains share genesis. */
  lemma SharedGenesisIsExact(step: Step, prior: Chain, c: Confirmed, chain: Chain)
    requires Lawful(step)
    requires Replay(step, prior) == Some(c) && Clean(step, prior) && chain != []
    requires Compatible(prior, chain) && Finishes(step, c, chain)
    ensures Replay(step, chain) == Some(Final(step, c, chain)) <==> SharedGenesis(prior, chain)
  {
    if SharedGenesis(prior, chain) {
      PassConverges(step, prior, c, chain);
    } else {
      ForeignGenesisSurvives(step, prior, c, chain);
      if Replay(step, chain).Some? {
        ReplayCarries(step, chain);
        assert CarriesAt(Replay(step, chain).value, chain, |chain|, 0);
      }
    }
  }

  // ----- Whole runs

  /** One pass: the chain the node held, and how many commits it made before it ended or was cut short. */
  datatype Pass = Pass(chain: Chain, commits: nat)

  ghost function PassResult(step: Step, c: Confirmed, p: Pass): Confirmed {
    var all := Commits(step, c, p.chain);
    Stopped(c, all, if p.commits <= |all| then p.commits else |all|)
  }

  ghost function RunResult(step: Step, passes: seq<Pass>): Confirmed {
    if passes == [] then EMPTY else
      PassResult(step, RunResult(step, passes[..|passes| - 1]), passes[|passes| - 1])
  }

  /** Every chain the node ever held is clean, linked, nonempty, and pairwise bound with one genesis. */
  ghost predicate Family(step: Step, chains: seq<Chain>) {
    && (forall i | 0 <= i < |chains| :: chains[i] != [] && Clean(step, chains[i]))
    && (forall i, j :: RelatedAt(chains, i, j))
  }

  ghost predicate RelatedAt(chains: seq<Chain>, i: nat, j: nat) {
    i < |chains| && j < |chains| ==> Compatible(chains[i], chains[j]) && SharedGenesis(chains[i], chains[j])
  }

  function ChainsOf(passes: seq<Pass>): (r: seq<Chain>)
    ensures |r| == |passes|
  {
    seq(|passes|, i requires 0 <= i < |passes| => passes[i].chain)
  }

  ghost predicate Honest(step: Step, passes: seq<Pass>) {
    Family(step, ChainsOf(passes))
  }

  /** A prefix of a clean chain is clean, and replays as the longer chain did on its way. */
  lemma {:induction false} PrefixReplays(step: Step, chain: Chain, n: nat, m: nat)
    requires Local(step) && m <= n <= |chain|
    ensures ReplayTo(step, chain[..n], m) == ReplayTo(step, chain, m)
    decreases m
  {
    if m == 0 {
    } else {
      PrefixReplays(step, chain, n, m - 1);
      if ReplayTo(step, chain, m - 1).Some? {
        assert LocalAt(step, ReplayTo(step, chain, m - 1).value, chain[..n], chain, m - 1);
      }
    }
  }

  lemma PrefixOfClean(step: Step, chain: Chain, n: nat)
    requires Local(step) && n <= |chain| && Clean(step, chain)
    ensures Clean(step, chain[..n])
  {
    forall k: nat
      ensures CleanAt(step, chain[..n], k)
    {
      if k < n {
        assert CleanAt(step, chain, k);
        PrefixReplays(step, chain, n, k);
      }
    }
  }

  lemma PrefixCompatible(a: Chain, m: nat, b: Chain)
    requires m <= |a| && Compatible(a, b) && SharedGenesis(a, b)
    ensures Compatible(a[..m], b) && SharedGenesis(a[..m], b)
  {
    forall k: nat
      ensures LinkedAt(a[..m], k) && BoundAt(a[..m], b, k)
    {
      assert LinkedAt(a, k) && BoundAt(a, b, k);
    }
  }

  /** One more pass from a replayed prefix of one chain ends on a replayed prefix of that chain or the new one. */
  lemma PassKeepsPrefix(step: Step, a: Chain, m: nat, c: Confirmed, p: Pass)
    requires Lawful(step)
    requires m <= |a| && ReplayTo(step, a, m) == Some(c) && Clean(step, a) && p.chain != []
    requires Compatible(a, p.chain) && SharedGenesis(a, p.chain)
    ensures PassResult(step, c, p) == c || IsPrefixReplay(step, PassResult(step, c, p), p.chain)
    ensures Finishes(step, c, p.chain) <==> Replay(step, p.chain).Some?
    ensures p.commits >= |Commits(step, c, p.chain)| && Finishes(step, c, p.chain) ==>
      Replay(step, p.chain) == Some(PassResult(step, c, p))
  {
    LawfulIsLocal(step);
    PrefixOfClean(step, a, m);
    PrefixCompatible(a, m, p.chain);
    PrefixReplays(step, a, m, m);
    PassConverges(step, a[..m], c, p.chain);
  }

  /** The state is a replay of a prefix of a chain the node held. */
  ghost predicate OnSomePrefix(step: Step, c: Confirmed, passes: seq<Pass>) {
    c == EMPTY || exists j | 0 <= j < |passes| :: IsPrefixReplay(step, c, passes[j].chain)
  }

  lemma HonestPrefix(step: Step, passes: seq<Pass>, n: nat)
    requires n <= |passes| && Honest(step, passes)
    ensures Honest(step, passes[..n])
  {
    FamilyPrefix(step, ChainsOf(passes), n);
    assert ChainsOf(passes[..n]) == ChainsOf(passes)[..n];
  }

  lemma FamilyPrefix(step: Step, chains: seq<Chain>, n: nat)
    requires n <= |chains| && Family(step, chains)
    ensures Family(step, chains[..n])
  {
    forall i, j
      ensures RelatedAt(chains[..n], i, j)
    {
      assert RelatedAt(chains, i, j);
    }
  }

  /**
   Safety over whole runs: however the node reorganises between passes and wherever each pass is cut
   short, the index is always a replay of a prefix of some chain the node held.
   */
  lemma {:induction false} AlwaysOnSomePrefix(step: Step, passes: seq<Pass>)
    requires Lawful(step)
    requires Honest(step, passes)
    ensures OnSomePrefix(step, RunResult(step, passes), passes)
    decreases |passes|
  {
    if passes == [] {
    } else {
      var n := |passes| - 1;
      HonestPrefix(step, passes, n);
      AlwaysOnSomePrefix(step, passes[..n]);
      var _ := LastPass(step, passes);
    }
  }

  /** From a state on some prefix, the last pass of an honest run. */
  lemma LastPass(step: Step, passes: seq<Pass>) returns (c: Confirmed)
    requires Lawful(step)
    requires Honest(step, passes) && passes != []
    requires OnSomePrefix(step, RunResult(step, passes[..|passes| - 1]), passes[..|passes| - 1])
    ensures c == RunResult(step, passes[..|passes| - 1])
    ensures OnSomePrefix(step, RunResult(step, passes), passes)
    ensures var p := passes[|passes| - 1];
      && (Finishes(step, c, p.chain) <==> Replay(step, p.chain).Some?)
      && (p.commits >= |Commits(step, c, p.chain)| && Finishes(step, c, p.chain) ==>
            Replay(step, p.chain) == Some(RunResult(step, passes)))
  {
    var n := |passes| - 1;
    c := RunResult(step, passes[..n]);
    var p := passes[n];
    assert ChainsOf(passes)[n] == p.chain;
    if c == EMPTY {
      assert RelatedAt(ChainsOf(passes), n, n);
      PassKeepsPrefix(step, p.chain, 0, c, p);
    } else {
      var j :| 0 <= j < n && IsPrefixReplay(step, c, passes[..n][j].chain);
      var a := passes[j].chain;
      assert passes[..n][j] == passes[j];
      assert ChainsOf(passes)[j] == a;
      assert RelatedAt(ChainsOf(passes), j, n);
      var m :| 0 <= m <= |a| && ReplayTo(step, a, m) == Some(c);
      PassKeepsPrefix(step, a, m, c, p);
      assert IsPrefixReplay(step, c, passes[j].chain);
    }
    assert passes[n] == p;
  }

  /**
   Path independence: after any run of passes over arbitrarily reorganising chains, a last pass that is
   not cut short leaves the index equal to a replay of the node's chain from nothing, whatever came before.
   */
  lemma PathIndependence(step: Step, passes: seq<Pass>)
    requires Lawful(step)
    requires Honest(step, passes) && passes != []
    requires var p := passes[|passes| - 1];
      p.commits >= |Commits(step, RunResult(step, passes[..|passes| - 1]), p.chain)| && Replay(step, p.chain).Some?
    ensures Replay(step, passes[|passes| - 1].chain) == Some(RunResult(step, passes))
  {
    var n := |passes| - 1;
    HonestPrefix(step, passes, n);
    AlwaysOnSomePrefix(step, passes[..n]);
    var _ := LastPass(step, passes);
  }
}
