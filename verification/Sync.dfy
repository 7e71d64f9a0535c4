/**
 The reorg-following protocol: compare the tip hash, walk down to a fork, roll back, replay.
 `Commits` is the list of table states one pass commits against a node that holds one chain.
 */
module Sync {
  import opened Rows
  import opened Ledger
  import opened Undo

  /** One block of the node's active chain: its hash, the hash its header names, and its rows, if readable. */
  datatype Link = Link(hash: Hash, prev: Option<Hash>, rows: Option<Block>)

  type Chain = seq<Link>

  ghost function WriteOf(b: Block): Write {
    Write(b, ChosenMarks(b.height, b.spends))
  }

  /** The rows of block `k`, filed under its own place in the chain. */
  predicate Filed(chain: Chain, k: nat) {
    k < |chain| && chain[k].rows.Some? && chain[k].rows.value.height == k && chain[k].rows.value.hash == chain[k].hash
  }

  ghost function ApplyAt(c: Confirmed, chain: Chain, k: nat): Option<Confirmed> {
    if Filed(chain, k) && Accepts(c, chain[k].rows.value) then
      Some(Applied(c, chain[k].rows.value, WriteOf(chain[k].rows.value).marks))
    else
      None
  }

  /**
   One Apply of block `k`, as a value. The protocol lemmas take it as a parameter and use only its laws, so
   they hold of any store whose step agrees with the ledger's.
   */
  type Step = (Confirmed, Chain, nat) -> Option<Confirmed>

  ghost predicate Lawful(step: Step) {
    forall c, chain, k :: StepIs(step, c, chain, k)
  }

  ghost predicate StepIs(step: Step, c: Confirmed, chain: Chain, k: nat) {
    step(c, chain, k) == ApplyAt(c, chain, k)
  }

  lemma ApplyAtLawful()
    ensures Lawful(ApplyAt)
  {
  }

  /** A step looks only at its own link. */
  ghost predicate Local(step: Step) {
    forall c, a, b, k :: LocalAt(step, c, a, b, k)
  }

  ghost predicate LocalAt(step: Step, c: Confirmed, a: Chain, b: Chain, k: nat) {
    k < |a| && k < |b| && a[k] == b[k] ==> step(c, a, k) == step(c, b, k)
  }

  lemma LawfulIsLocal(step: Step)
    requires Lawful(step)
    ensures Local(step)
  {
    forall c, a, b, k: nat
      ensures LocalAt(step, c, a, b, k)
    {
      assert StepIs(step, c, a, k) && StepIs(step, c, b, k);
    }
  }

  /** Indexing the first `m` blocks of a chain from nothing. */
  ghost function ReplayTo(step: Step, chain: Chain, m: nat): Option<Confirmed> {
    if m == 0 then Some(EMPTY) else
      match ReplayTo(step, chain, m - 1)
      case None => None
      case Some(c) => step(c, chain, m - 1)
  }

  ghost function Replay(step: Step, chain: Chain): Option<Confirmed> {
    ReplayTo(step, chain, |chain|)
  }

  // ----- What the node promises about its chains

  /** Each header names the block below it. */
  ghost predicate Linked(chain: Chain) {
    forall k :: LinkedAt(chain, k)
  }

  ghost predicate LinkedAt(chain: Chain, k: nat) {
    0 < k < |chain| ==> chain[k].prev == Some(chain[k - 1].hash)
  }

  /** A hash names one block: where two chains carry one hash at one height, they carry one block. */
  ghost predicate Bound(a: Chain, b: Chain) {
    forall k :: BoundAt(a, b, k)
  }

  ghost predicate BoundAt(a: Chain, b: Chain, k: nat) {
    k < |a| && k < |b| && a[k].hash == b[k].hash ==> a[k] == b[k]
  }

  /** No block spends an outpoint twice, or spends a row an earlier block already marked. */
  ghost predicate Clean(step: Step, chain: Chain) {
    forall k :: CleanAt(step, chain, k)
  }

  ghost predicate CleanAt(step: Step, chain: Chain, k: nat) {
    Filed(chain, k) && ReplayTo(step, chain, k).Some? ==> CleanOn(ReplayTo(step, chain, k).value, chain[k].rows.value)
  }

  ghost predicate CleanOn(c: Confirmed, b: Block) {
    DistinctSpends(b.spends) && !Respends(c, b)
  }

  ghost predicate SharedGenesis(a: Chain, b: Chain) {
    a != [] && b != [] ==> a[0].hash == b[0].hash
  }

  // ----- One pass

  /** The highest height below `from` where the index and the node agree. */
  ghost function FindFork(c: Confirmed, chain: Chain, from: nat): Option<nat> {
    if from == 0 then None
    else if AgreeAt(c, chain, from - 1) then Some(from - 1)
    else FindFork(c, chain, from - 1)
  }

  ghost predicate AgreeAt(c: Confirmed, chain: Chain, k: nat) {
    k in c.blocks && k < |chain| && c.blocks[k].hash == chain[k].hash
  }

  /** The states after applying chain[from], chain[from + 1], ..., up to the first block refused. */
  ghost function ApplyRange(step: Step, c: Confirmed, chain: Chain, from: nat): (r: seq<Confirmed>)
    ensures from >= |chain| ==> r == []
    decreases |chain| - from
  {
    if from >= |chain| then [] else
      match step(c, chain, from)
      case None => []
      case Some(d) => [d] + ApplyRange(step, d, chain, from + 1)
  }

  /** The rollbacks a pass commits before it applies anything. A genesis mismatch rolls back to 0, twice. */
  ghost function Rollbacks(c: Confirmed, chain: Chain): seq<Confirmed> {
    match c.tip
    case None => []
    case Some(t) =>
      if t.height < |chain| && chain[t.height].hash == t.hash then [] else
        match FindFork(c, chain, t.height)
        case Some(f) => [RolledBack(c, f)]
        case None => [RolledBack(c, 0), RolledBack(RolledBack(c, 0), 0)]
  }

  ghost function Resumed(c: Confirmed, chain: Chain): Confirmed {
    var r := Rollbacks(c, chain);
    if r == [] then c else r[|r| - 1]
  }

  /** Where the pass starts applying. */
  ghost function StartHeight(c: Confirmed, chain: Chain): nat {
    match c.tip
    case None => 0
    case Some(t) =>
      if t.height < |chain| && chain[t.height].hash == t.hash then t.height + 1 else
        match FindFork(c, chain, t.height)
        case Some(f) => f + 1
        case None => 1
  }

  ghost function Commits(step: Step, c: Confirmed, chain: Chain): seq<Confirmed> {
    if chain == [] then [] else
      Rollbacks(c, chain) + ApplyRange(step, Resumed(c, chain), chain, StartHeight(c, chain))
  }

  /** The pass reached the node's tip. */
  ghost predicate Finishes(step: Step, c: Confirmed, chain: Chain) {
    StartHeight(c, chain) + |ApplyRange(step, Resumed(c, chain), chain, StartHeight(c, chain))| >= |chain|
  }

  ghost function Stopped(c: Confirmed, commits: seq<Confirmed>, n: nat): Confirmed
    requires n <= |commits|
  {
    if n == 0 then c else commits[n - 1]
  }

  ghost function Final(step: Step, c: Confirmed, chain: Chain): Confirmed {
    Stopped(c, Commits(step, c, chain), |Commits(step, c, chain)|)
  }

  lemma RangeHead(step: Step, c: Confirmed, chain: Chain, from: nat, d: Confirmed)
    requires from < |chain| && step(c, chain, from) == Some(d)
    ensures ApplyRange(step, c, chain, from) == [d] + ApplyRange(step, d, chain, from + 1)
  {
  }

  // ----- Traces: the states a replay goes through

  /** `states[k]` is the index after the first `k` blocks of the chain. */
  ghost predicate Trace(step: Step, chain: Chain, states: seq<Confirmed>) {
    1 <= |states| <= |chain| + 1 && states[0] == EMPTY && forall k :: TraceAt(step, chain, states, k)
  }

  ghost predicate TraceAt(step: Step, chain: Chain, states: seq<Confirmed>, k: nat) {
    k + 1 < |states| ==> step(states[k], chain, k) == Some(states[k + 1])
  }

  ghost predicate CleanTrace(chain: Chain, states: seq<Confirmed>) {
    forall k :: CleanTraceAt(chain, states, k)
  }

  ghost predicate CleanTraceAt(chain: Chain, states: seq<Confirmed>, k: nat) {
    k + 1 < |states| && Filed(chain, k) ==> CleanOn(states[k], chain[k].rows.value)
  }

  /** A trace is the replay. */
  lemma {:induction false} TraceIsReplay(step: Step, chain: Chain, states: seq<Confirmed>, m: nat)
    requires Trace(step, chain, states) && m < |states|
    ensures ReplayTo(step, chain, m) == Some(states[m])
    decreases m
  {
    if m == 0 {
    } else {
      TraceIsReplay(step, chain, states, m - 1);
      assert TraceAt(step, chain, states, m - 1);
    }
  }

  lemma {:induction false} ReplayHasTrace(step: Step, chain: Chain, m: nat) returns (states: seq<Confirmed>)
    requires m <= |chain| && ReplayTo(step, chain, m).Some?
    ensures Trace(step, chain, states) && |states| == m + 1 && states[m] == ReplayTo(step, chain, m).value
    decreases m
  {
    if m == 0 {
      states := [EMPTY];
    } else {
      var before := ReplayHasTrace(step, chain, m - 1);
      states := before + [ReplayTo(step, chain, m).value];
      TraceGrows(step, chain, before, ReplayTo(step, chain, m).value);
    }
  }

  lemma TraceGrows(step: Step, chain: Chain, states: seq<Confirmed>, d: Confirmed)
    requires Trace(step, chain, states) && |states| <= |chain|
    requires step(states[|states| - 1], chain, |states| - 1) == Some(d)
    ensures Trace(step, chain, states + [d])
  {
    forall k: nat
      ensures TraceAt(step, chain, states + [d], k)
    {
      assert TraceAt(step, chain, states, k);
    }
  }

  lemma CleanGivesTrace(step: Step, chain: Chain, states: seq<Confirmed>)
    requires Clean(step, chain) && Trace(step, chain, states)
    ensures CleanTrace(chain, states)
  {
    forall k: nat
      ensures CleanTraceAt(chain, states, k)
    {
      if k + 1 < |states| {
        assert CleanAt(step, chain, k);
        TraceIsReplay(step, chain, states, k);
      }
    }
  }

  /** Chains that coincide up to a height have the same trace up to it. */
  lemma TraceShared(step: Step, a: Chain, b: Chain, states: seq<Confirmed>, m: nat)
    requires Local(step) && Trace(step, a, states) && m < |states| && m <= |b| && a[..m] == b[..m]
    ensures Trace(step, b, states[..m + 1])
  {
    var cut := states[..m + 1];
    forall k: nat
      ensures TraceAt(step, b, cut, k)
    {
      assert TraceAt(step, a, states, k);
      if k < m {
        assert a[k] == a[..m][k] == b[..m][k] == b[k];
        assert LocalAt(step, states[k], a, b, k);
      }
    }
  }

  // ----- What a traced state looks like

  lemma ApplyAtSound(c: Confirmed, chain: Chain, k: nat, d: Confirmed)
    requires Sound(c) && NextHeight(c) == k && ApplyAt(c, chain, k) == Some(d)
    ensures Sound(d) && NextHeight(d) == k + 1
    ensures d.blocks.Keys == c.blocks.Keys + {k} && d.blocks[k].hash == chain[k].hash
    ensures forall j | j in c.blocks :: d.blocks[j] == c.blocks[j]
  {
    var b := chain[k].rows.value;
    ChosenMarksPick(k, b.spends);
    AppliedSound(c, b, WriteOf(b).marks);
    assert forall j | j in c.blocks :: j < k;
  }

  /** The index holds blocks 0..m-1 of the chain, by hash. */
  ghost predicate Carries(c: Confirmed, chain: Chain, m: nat) {
    && m <= |chain|
    && c.tip == (if m == 0 then None else Some(Tip(m - 1, chain[m - 1].hash)))
    && forall k :: CarriesAt(c, chain, m, k)
  }

  ghost predicate CarriesAt(c: Confirmed, chain: Chain, m: nat, k: nat)
    requires m <= |chain|
  {
    (k in c.blocks <==> k < m) && (k in c.blocks ==> c.blocks[k].hash == chain[k].hash)
  }

  lemma {:induction false} TraceSound(step: Step, chain: Chain, states: seq<Confirmed>, m: nat)
    requires Lawful(step)
    requires Trace(step, chain, states) && m < |states|
    ensures Sound(states[m]) && NextHeight(states[m]) == m
    ensures Carries(states[m], chain, m)
    decreases m
  {
    if m == 0 {
      EmptySound();
    } else {
      TraceSound(step, chain, states, m - 1);
      assert TraceAt(step, chain, states, m - 1);
      assert StepIs(step, states[m - 1], chain, m - 1);
      ApplyAtSound(states[m - 1], chain, m - 1, states[m]);
      forall k: nat
        ensures CarriesAt(states[m], chain, m, k)
      {
        assert CarriesAt(states[m - 1], chain, m - 1, k);
      }
    }
  }

  // ----- Rollback on a trace

  /** `ws` writes the blocks of the chain from `from` on. */
  ghost predicate WritesChain(chain: Chain, from: nat, ws: seq<Write>) {
    forall i :: WriteIs(chain, from, ws, i)
  }

  ghost predicate WriteIs(chain: Chain, from: nat, ws: seq<Write>, i: nat) {
    i < |ws| ==> Filed(chain, from + i) && ws[i].block == chain[from + i].rows.value
  }

  lemma ApplyAtAllowed(c: Confirmed, chain: Chain, k: nat, d: Confirmed) returns (w: Write)
    requires NextHeight(c) == k && ApplyAt(c, chain, k) == Some(d)
    ensures Filed(chain, k) && w.block == chain[k].rows.value && Allowed(c, w) && d == Applied(c, w.block, w.marks)
  {
    w := WriteOf(chain[k].rows.value);
    ChosenMarksPick(k, chain[k].rows.value.spends);
  }

  lemma ApplyAllSnoc(c: Confirmed, ws: seq<Write>, w: Write, d: Confirmed)
    requires ApplyAll(c, ws) == Some(d) && Allowed(d, w)
    ensures ApplyAll(c, ws + [w]) == Some(Applied(d, w.block, w.marks))
  {
  }

  lemma WritesSnoc(chain: Chain, from: nat, ws: seq<Write>, w: Write)
    requires WritesChain(chain, from, ws) && Filed(chain, from + |ws|) && w.block == chain[from + |ws|].rows.value
    ensures WritesChain(chain, from, ws + [w])
  {
    var more := ws + [w];
    forall i: nat
      ensures WriteIs(chain, from, more, i)
    {
      assert WriteIs(chain, from, ws, i);
    }
  }

  /** `ws` is a run of accepted writes that takes `c` to `d` over the blocks of the chain from `from` on. */
  ghost predicate Leads(chain: Chain, from: nat, c: Confirmed, ws: seq<Write>, d: Confirmed) {
    WritesChain(chain, from, ws) && ApplyAll(c, ws) == Some(d)
  }

  lemma LeadsNowhere(chain: Chain, from: nat, c: Confirmed)
    ensures Leads(chain, from, c, [], c)
  {
  }

  lemma LeadsOn(
    step: Step, chain: Chain, states: seq<Confirmed>, from: nat, c: Confirmed, ws: seq<Write>,
    d: Confirmed, e: Confirmed)
    returns (more: seq<Write>)
    requires Lawful(step) && Trace(step, chain, states) && from + |ws| + 1 < |states|
    requires d == states[from + |ws|] && e == states[from + |ws| + 1] && Leads(chain, from, c, ws, d)
    ensures |more| == |ws| + 1 && Leads(chain, from, c, more, e)
  {
    var w := OneMoreWrite(step, chain, states, c, ws, from + |ws|);
    WritesSnoc(chain, from, ws, w);
    more := ws + [w];
  }

  /** Between two states of a trace lies a run of accepted writes. */
  lemma {:induction false} TraceWrites(
    step: Step, chain: Chain, states: seq<Confirmed>, from: nat, n: nat, c: Confirmed, d: Confirmed)
    returns (ws: seq<Write>)
    requires Lawful(step) && Trace(step, chain, states) && from <= n < |states| && c == states[from] && d == states[n]
    ensures |ws| == n - from && Leads(chain, from, c, ws, d)
    decreases n
  {
    if from == n {
      ws := [];
      LeadsNowhere(chain, from, c);
    } else {
      var last := states[n - 1];
      var before := TraceWrites(step, chain, states, from, n - 1, c, last);
      ws := LeadsOn(step, chain, states, from, c, before, last, d);
    }
  }

  lemma OneMoreWrite(step: Step, chain: Chain, states: seq<Confirmed>, c: Confirmed, ws: seq<Write>, k: nat)
    returns (w: Write)
    requires Lawful(step) && Trace(step, chain, states) && k + 1 < |states| && ApplyAll(c, ws) == Some(states[k])
    ensures Filed(chain, k) && w.block == chain[k].rows.value && ApplyAll(c, ws + [w]) == Some(states[k + 1])
  {
    TraceHeight(step, chain, states, k);
    assert TraceAt(step, chain, states, k) && StepIs(step, states[k], chain, k);
    w := ApplyAtAllowed(states[k], chain, k, states[k + 1]);
    ApplyAllSnoc(c, ws, w, states[k]);
  }

  lemma TraceHeight(step: Step, chain: Chain, states: seq<Confirmed>, m: nat)
    requires Lawful(step) && Trace(step, chain, states) && m < |states|
    ensures NextHeight(states[m]) == m
  {
    TraceSound(step, chain, states, m);
  }

  lemma RespendsStay(chain: Chain, c: Confirmed, ws: seq<Write>, h: nat, b: Block, d: Confirmed)
    requires Sound(c) && NextHeight(c) == h + 1 && Leads(chain, h + 1, c, ws, d)
    ensures Respends(c, b) ==> Respends(d, b)
  {
    if Respends(c, b) {
      var o :| o in Consumed(b.spends) && o in c.outputs && c.outputs[o].spent.Some?;
      MarksStay(c, ws, h, o);
    }
  }

  /** A row marked at one state of a trace is marked at every later one. */
  lemma RespendsStayOnTrace(step: Step, chain: Chain, states: seq<Confirmed>, h: nat, k: nat, b: Block)
    requires Lawful(step) && Trace(step, chain, states) && h < k < |states|
    ensures Respends(states[h + 1], b) ==> Respends(states[k], b)
  {
    TraceSound(step, chain, states, h + 1);
    var c, d := states[h + 1], states[k];
    var ws := TraceWrites(step, chain, states, h + 1, k, c, d);
    RespendsStay(chain, c, ws, h, b, d);
  }

  lemma NoneRespends(step: Step, chain: Chain, states: seq<Confirmed>, h: nat, k: nat)
    requires Lawful(step) && Trace(step, chain, states) && CleanTrace(chain, states) && h < k < |states| - 1
    requires Filed(chain, k)
    ensures !Respends(states[h + 1], chain[k].rows.value)
  {
    assert CleanTraceAt(chain, states, k);
    RespendsStayOnTrace(step, chain, states, h, k, chain[k].rows.value);
  }

  /** Rolling a clean index back to a height leaves exactly the state the replay passed through there. */
  lemma RollbackRetracesSteps(step: Step, chain: Chain, states: seq<Confirmed>, h: nat, n: nat)
    requires Lawful(step) && Trace(step, chain, states) && CleanTrace(chain, states) && h < n < |states|
    ensures RolledBack(states[n], h) == states[h + 1]
  {
    TraceSound(step, chain, states, h + 1);
    var c, d := states[h + 1], states[n];
    var ws := TraceWrites(step, chain, states, h + 1, n, c, d);
    NoWriteRespends(step, chain, states, h, n, ws, c, d);
    RollbackOfRun(chain, c, ws, h, d);
  }

  ghost predicate NoRespendIn(c: Confirmed, ws: seq<Write>) {
    forall i | 0 <= i < |ws| :: !Respends(c, ws[i].block)
  }

  lemma NoWriteRespends(
    step: Step, chain: Chain, states: seq<Confirmed>, h: nat, n: nat, ws: seq<Write>, c: Confirmed, d: Confirmed)
    requires Lawful(step) && Trace(step, chain, states) && CleanTrace(chain, states) && h < n < |states|
    requires c == states[h + 1] && Leads(chain, h + 1, c, ws, d) && |ws| == n - (h + 1)
    ensures NoRespendIn(c, ws)
  {
    forall i | 0 <= i < |ws|
      ensures !Respends(states[h + 1], ws[i].block)
    {
      assert WriteIs(chain, h + 1, ws, i);
      NoneRespends(step, chain, states, h, h + 1 + i);
    }
  }

  lemma RollbackOfRun(chain: Chain, c: Confirmed, ws: seq<Write>, h: nat, d: Confirmed)
    requires Sound(c) && NextHeight(c) == h + 1 && Leads(chain, h + 1, c, ws, d) && NoRespendIn(c, ws)
    ensures RolledBack(d, h) == c
  {
    RollbackInvertsApply(c, ws, h);
  }

  // ----- Fork finding

  /** With linked chains and binding hashes, agreeing at one height means agreeing on everything below it. */
  lemma {:induction false} AgreementIsDownwardClosed(a: Chain, b: Chain, h: nat)
    requires Linked(a) && Linked(b) && Bound(a, b)
    requires h < |a| && h < |b| && a[h].hash == b[h].hash
    ensures a[..h + 1] == b[..h + 1]
    decreases h
  {
    assert BoundAt(a, b, h);
    if h > 0 {
      assert LinkedAt(a, h) && LinkedAt(b, h);
      AgreementIsDownwardClosed(a, b, h - 1);
      assert a[..h + 1] == a[..h] + [a[h]] && b[..h + 1] == b[..h] + [b[h]];
    } else {
      assert a[..1] == [a[0]] && b[..1] == [b[0]];
    }
  }

  /** The walk down finds the greatest agreed height below the tip, and misses only when there is none. */
  lemma {:induction false} ForkIsGreatest(c: Confirmed, chain: Chain, from: nat)
    ensures match FindFork(c, chain, from)
      case Some(f) => f < from && AgreeAt(c, chain, f) && forall k | f < k < from :: !AgreeAt(c, chain, k)
      case None => forall k | 0 <= k < from :: !AgreeAt(c, chain, k)
    decreases from
  {
    if from == 0 {
    } else {
      ForkIsGreatest(c, chain, from - 1);
    }
  }

  lemma ForkExists(prior: Chain, chain: Chain, c: Confirmed)
    requires Carries(c, prior, |prior|) && prior != [] && chain != [] && SharedGenesis(prior, chain)
    requires !(|prior| <= |chain| && prior[|prior| - 1].hash == chain[|prior| - 1].hash)
    ensures FindFork(c, chain, |prior| - 1).Some?
    ensures var f := FindFork(c, chain, |prior| - 1).value;
      f + 1 < |prior| && f < |chain| && prior[f].hash == chain[f].hash
  {
    ForkIsGreatest(c, chain, |prior| - 1);
    assert CarriesAt(c, prior, |prior|, 0);
    assert AgreeAt(c, chain, 0);
    assert CarriesAt(c, prior, |prior|, FindFork(c, chain, |prior| - 1).value);
  }

  /** Above the fork the chains part: the walk stops at the greatest agreed height. */
  lemma NothingSharedAboveFork(prior: Chain, chain: Chain, c: Confirmed, k: nat)
    requires Carries(c, prior, |prior|) && prior != [] && FindFork(c, chain, |prior| - 1).Some?
    requires !(|prior| <= |chain| && prior[|prior| - 1].hash == chain[|prior| - 1].hash)
    requires FindFork(c, chain, |prior| - 1).value < k < |prior| && k < |chain|
    ensures prior[k].hash != chain[k].hash
  {
    ForkIsGreatest(c, chain, |prior| - 1);
    assert CarriesAt(c, prior, |prior|, k);
    assert k < |prior| - 1 ==> !AgreeAt(c, chain, k);
  }

  /**
   For an index that carries `prior`, a shared genesis makes the walk succeed, and the chains coincide up
   to the height it returns, including when the node's chain is the shorter one.
   */
  lemma ForkIsShared(prior: Chain, chain: Chain, c: Confirmed)
    requires Carries(c, prior, |prior|) && prior != [] && chain != []
    requires Linked(prior) && Linked(chain) && Bound(prior, chain) && SharedGenesis(prior, chain)
    requires !(|prior| <= |chain| && prior[|prior| - 1].hash == chain[|prior| - 1].hash)
    ensures FindFork(c, chain, |prior| - 1).Some?
    ensures var f := FindFork(c, chain, |prior| - 1).value;
      f + 1 < |prior| && f < |chain| && prior[..f + 1] == chain[..f + 1]
  {
    ForkExists(prior, chain, c);
    AgreementIsDownwardClosed(prior, chain, FindFork(c, chain, |prior| - 1).value);
  }
}
