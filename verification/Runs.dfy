/** Whole runs of the store: blocks, rollbacks and snapshots in any order. */
module Runs {
  import opened Rows
  import opened Ledger
  import opened Undo
  import opened Overlay

  /** One transaction the store is asked to commit. */
  datatype Event =
    | Snapshot(pool: Pool, now: int)
    | ApplyBlock(write: Write)
    | RollbackTo(height: nat)

  /** A refused transaction leaves the tables alone. */
  ghost function Step(s: State, e: Event): State {
    match e
    case Snapshot(pool, now) =>
      (match Replaced(s, pool, now)
       case Some(t) => t
       case None => s)
    case ApplyBlock(w) => if Accepts(s.c, w.block) then AppliedState(s, w) else s
    case RollbackTo(h) => RolledBackState(s, h)
  }

  /** `states` are the states a run goes through: one before the first event and one after each. */
  ghost predicate IsRun(states: seq<State>, events: seq<Event>) {
    |states| == |events| + 1 && forall k :: StepAt(states, events, k)
  }

  ghost predicate StepAt(states: seq<State>, events: seq<Event>, k: nat) {
    k < |events| && k + 1 < |states| ==> states[k + 1] == Step(states[k], events[k])
  }

  // ----- Overlay consistency over runs

  /** Marks are ones Postgres may pick, and each snapshot fits the tables it is written over. */
  ghost predicate EventFits(s: State, e: Event) {
    match e
    case Snapshot(pool, now) => DistinctTxids(pool.txs) ==> PoolFits(s.c.outputs, pool)
    case ApplyBlock(w) => Picks(w.block.height, w.block.spends, w.marks)
    case RollbackTo(h) => true
  }

  lemma StepKeepsConsistent(s: State, e: Event)
    requires Consistent(s) && EventFits(s, e)
    ensures Consistent(Step(s, e))
  {
    match e {
      case Snapshot(pool, now) =>
        if DistinctTxids(pool.txs) {
          ReplaceMakesConsistent(s, pool, now);
        }
      case ApplyBlock(w) =>
        if Accepts(s.c, w.block) {
          ApplyKeepsConsistent(s, w);
        }
      case RollbackTo(h) =>
        RollbackKeepsConsistent(s, h);
    }
  }

  /** Every reachable state is consistent as long as each snapshot fitted the tip it landed on. */
  lemma {:induction false} ConsistentOverRuns(states: seq<State>, events: seq<Event>, n: nat)
    requires IsRun(states, events) && n < |states| && Consistent(states[0])
    requires forall k | 0 <= k < |events| :: EventFits(states[k], events[k])
    ensures Consistent(states[n])
    decreases n
  {
    if n == 0 {
    } else {
      ConsistentOverRuns(states, events, n - 1);
      assert StepAt(states, events, n - 1);
      StepKeepsConsistent(states[n - 1], events[n - 1]);
    }
  }

  // ----- The structural invariant over runs

  /** Blocks arrive at the next height and rollbacks name an indexed one. Snapshots are unrestricted. */
  ghost predicate InStep(s: State, e: Event) {
    match e
    case Snapshot(pool, now) => true
    case ApplyBlock(w) => w.block.height == NextHeight(s.c) && Picks(w.block.height, w.block.spends, w.marks)
    case RollbackTo(h) => h in s.c.blocks
  }

  lemma StepKeepsSound(s: State, e: Event)
    requires Sound(s.c) && InStep(s, e)
    ensures Sound(Step(s, e).c)
  {
    match e {
      case Snapshot(pool, now) =>
      case ApplyBlock(w) =>
        if Accepts(s.c, w.block) {
          AppliedSound(s.c, w.block, w.marks);
        }
      case RollbackTo(h) =>
        RolledBackSound(s.c, h);
    }
  }

  /** Heights are contiguous, rows anchored and spends ordered in every state a run goes through. */
  lemma {:induction false} SoundOverRuns(states: seq<State>, events: seq<Event>, n: nat)
    requires IsRun(states, events) && n < |states| && Sound(states[0].c)
    requires forall k | 0 <= k < |events| :: InStep(states[k], events[k])
    ensures Sound(states[n].c)
    decreases n
  {
    if n == 0 {
    } else {
      SoundOverRuns(states, events, n - 1);
      assert StepAt(states, events, n - 1);
      StepKeepsSound(states[n - 1], events[n - 1]);
    }
  }

  // ----- first_seen over runs

  predicate Holds(states: seq<State>, k: nat, x: Hash) {
    k < |states| && x in states[k].m.txs
  }

  /** Event `i` is the snapshot that began the stretch of presence `x` is in after `n` events. */
  ghost predicate BeganAt(states: seq<State>, events: seq<Event>, i: nat, n: nat, x: Hash) {
    && i < n && i < |events|
    && events[i].Snapshot? && x in Txids(events[i].pool.txs)
    && !Holds(states, i, x)
    && forall k | i < k <= n :: Holds(states, k, x)
  }

  lemma SeenBefore(states: seq<State>, events: seq<Event>, m: nat, n: nat, x: Hash)
    requires IsRun(states, events) && n == m + 1 && n < |states| && x in states[n].m.txs
    ensures x in states[m].m.txs ==> states[n].m.txs[x].firstSeen == states[m].m.txs[x].firstSeen
    ensures x !in states[m].m.txs ==> events[m].Snapshot? && x in Txids(events[m].pool.txs)
    ensures x !in states[m].m.txs ==> states[n].m.txs[x].firstSeen == events[m].now
  {
    assert StepAt(states, events, m);
    StepSeen(states[m], events[m], x);
  }

  lemma BeganStays(states: seq<State>, events: seq<Event>, i: nat, m: nat, n: nat, x: Hash)
    requires BeganAt(states, events, i, m, x) && n == m + 1 && Holds(states, n, x)
    ensures BeganAt(states, events, i, n, x)
  {
  }

  lemma StepSeen(s: State, e: Event, x: Hash)
    requires x in Step(s, e).m.txs
    ensures x in s.m.txs ==> Step(s, e).m.txs[x].firstSeen == s.m.txs[x].firstSeen
    ensures x !in s.m.txs ==> e.Snapshot? && x in Txids(e.pool.txs) && Step(s, e).m.txs[x].firstSeen == e.now
  {
  }

  /** Event `e` takes the transaction out: a snapshot that does not list it, or an accepted block that does. */
  ghost predicate Removes(s: State, e: Event, x: Hash) {
    match e
    case Snapshot(pool, now) => DistinctTxids(pool.txs) && !Lists(pool.txs, x)
    case ApplyBlock(w) => Accepts(s.c, w.block) && Lists(w.block.txs, x)
    case RollbackTo(h) => false
  }

  predicate Lists(txs: seq<Tx>, x: Hash) {
    exists t | t in txs :: t.txid == x
  }

  lemma ListsIsTxids(txs: seq<Tx>, x: Hash)
    ensures Lists(txs, x) <==> x in Txids(txs)
  {
    if Lists(txs, x) {
      var i :| 0 <= i < |txs| && txs[i].txid == x;
    }
  }

  /** A stretch of presence ends exactly there, and until it ends the transaction keeps its clock. */
  lemma PresenceEnds(s: State, e: Event, x: Hash)
    requires x in s.m.txs
    ensures x !in Step(s, e).m.txs <==> Removes(s, e, x)
    ensures x in Step(s, e).m.txs ==> Step(s, e).m.txs[x].firstSeen == s.m.txs[x].firstSeen
    ensures x in Step(s, e).m.txs && !e.Snapshot? ==> Step(s, e).m.txs[x] == s.m.txs[x]
  {
    match e {
      case Snapshot(pool, now) => ListsIsTxids(pool.txs, x);
      case ApplyBlock(w) => ListsIsTxids(w.block.txs, x);
      case RollbackTo(h) =>
    }
  }

  ghost predicate RemovesAt(states: seq<State>, events: seq<Event>, k: nat, x: Hash) {
    k < |events| && k < |states| && Removes(states[k], events[k], x)
  }

  lemma {:induction false} UnremovedStays(states: seq<State>, events: seq<Event>, i: nat, n: nat, x: Hash)
    requires IsRun(states, events) && i <= n < |states| && x in states[i].m.txs
    requires forall k: nat | i <= k < n :: !RemovesAt(states, events, k, x)
    ensures x in states[n].m.txs
    decreases n
  {
    if i == n {
    } else {
      UnremovedStays(states, events, i, n - 1, x);
      assert StepAt(states, events, n - 1) && !RemovesAt(states, events, n - 1, x);
      PresenceEnds(states[n - 1], events[n - 1], x);
    }
  }

  /** Over a run, a transaction is held all through a stretch exactly when no event of it took it out. */
  lemma PresentWhileNotRemoved(states: seq<State>, events: seq<Event>, i: nat, n: nat, x: Hash)
    requires IsRun(states, events) && i <= n < |states| && x in states[i].m.txs
    ensures (forall k: nat | i <= k <= n :: Holds(states, k, x))
       <==> (forall k: nat | i <= k < n :: !RemovesAt(states, events, k, x))
  {
    if forall k: nat | i <= k < n :: !RemovesAt(states, events, k, x) {
      forall k: nat | i <= k <= n
        ensures Holds(states, k, x)
      {
        UnremovedStays(states, events, i, k, x);
      }
    }
    if forall k: nat | i <= k <= n :: Holds(states, k, x) {
      forall k: nat | i <= k < n
        ensures !RemovesAt(states, events, k, x)
      {
        assert Holds(states, k, x) && Holds(states, k + 1, x) && StepAt(states, events, k);
        PresenceEnds(states[k], events[k], x);
      }
    }
  }

  /**
   In every run that starts without `x`, a held transaction's first_seen is the clock of the pass that
   began its current unbroken stretch of presence.
   */
  lemma {:induction false} FirstSeenOverRuns(states: seq<State>, events: seq<Event>, n: nat, x: Hash) returns (i: nat)
    requires IsRun(states, events) && n < |states| && x !in states[0].m.txs && x in states[n].m.txs
    ensures BeganAt(states, events, i, n, x)
    ensures states[n].m.txs[x].firstSeen == events[i].now
    decreases n
  {
    var m := n - 1;
    SeenBefore(states, events, m, n, x);
    if x in states[m].m.txs {
      i := FirstSeenOverRuns(states, events, m, x);
      BeganStays(states, events, i, m, n, x);
    } else {
      i := m;
    }
  }
}
