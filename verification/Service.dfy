/**
 A connection that callers reopen and share. Calls run concurrently; every step below is one section
 under a mutex, one atomic swap, or one call out, so a run is any interleaving of steps.
 */
module Services {
  import opened Rows

  type Conn = nat
  type Caller = nat
  type Chan = nat

  /** Where one call stands between two of its steps. */
  datatype Stage =
    | Opened(conn: Conn)                // Connect holds a connection nobody else has seen
    | Taken(prior: Conn, report: bool)  // Connect or close took this one out and must release it
    | Reporting                         // Connect is about to report that the connection stands
    | Announcing(up: bool)              // the flag changed, and subscribers are still to be told

  datatype Note = Sent(chan: Chan) | Closed(chan: Chan)

  datatype Service = Service(
    hasCloser: bool,
    client: Option<Conn>,         // the connection held, when `have` is set
    connected: bool,
    calls: map<Caller, Stage>,    // the calls in flight
    count: nat,                   // connections 0..count-1 were opened
    releases: seq<Conn>,          // what the closer was called with, in order
    channels: nat,                // channels 0..channels-1 were made
    made: set<Chan>,              // made and not registered yet
    subs: set<Chan>,
    notes: seq<Note>)             // every send and close on a subscriber channel, in order

  function New(hasCloser: bool): Service {
    Service(hasCloser, None, false, map[], 0, [], 0, {}, {}, [])
  }

  datatype Step =
    | Connect(t: Caller)              // the connector succeeded
    | ConnectFails(t: Caller)         // there is no connector, or it failed
    | Install(t: Caller)              // swap the new connection in, under mu
    | Release(t: Caller)              // call the closer on the one swapped out
    | Report(t: Caller)               // connected.Swap(true)
    | Drop(t: Caller)                 // connected.Swap(false)
    | Announce(t: Caller)             // offer the new state to each subscriber, under subsMu
    | Shutdown(t: Caller)             // close: take the connection out, under mu
    | Subscribe                       // make a channel and fill it before anyone else sees it
    | Register(ch: Chan)              // put it in the subscriber set, under subsMu
    | Unsubscribe(ch: Chan)           // its context ended: drop and close it if still registered

  /** What follows the section that took `prior` out: release it when there is a closer, or move on. */
  function AfterTaking(s: Service, t: Caller, report: bool): map<Caller, Stage> {
    if s.client.Some? && s.hasCloser then s.calls[t := Taken(s.client.value, report)]
    else if report then s.calls[t := Reporting]
    else s.calls - {t}
  }

  /** Swapping the flag: nothing more to do unless it changed. */
  function Swapped(s: Service, t: Caller, up: bool): Service {
    if s.connected == up then s.(calls := s.calls - {t})
    else s.(connected := up, calls := s.calls[t := Announcing(up)])
  }

  /** The sends of one announcement, in some order of the subscriber set. Sends to a full channel are dropped. */
  ghost predicate Announces(subs: set<Chan>, more: seq<Note>) {
    forall i | 0 <= i < |more| :: more[i].Sent? && more[i].chan in subs
  }

  ghost predicate Next(s: Service, step: Step, s': Service) {
    match step
    case Connect(t) => t !in s.calls && s' == s.(count := s.count + 1, calls := s.calls[t := Opened(s.count)])
    case ConnectFails(t) => t !in s.calls && s' == Swapped(s, t, false)
    case Install(t) =>
      && t in s.calls && s.calls[t].Opened?
      && s' == s.(client := Some(s.calls[t].conn), calls := AfterTaking(s, t, true))
    case Release(t) =>
      && t in s.calls && s.calls[t].Taken?
      && s' == s.(releases := s.releases + [s.calls[t].prior],
                  calls := if s.calls[t].report then s.calls[t := Reporting] else s.calls - {t})
    case Report(t) => t in s.calls && s.calls[t].Reporting? && s' == Swapped(s, t, true)
    case Drop(t) => t !in s.calls && s' == Swapped(s, t, false)
    case Announce(t) =>
      && t in s.calls && s.calls[t].Announcing?
      && exists more | Announces(s.subs, more) :: s' == s.(notes := s.notes + more, calls := s.calls - {t})
    case Shutdown(t) => t !in s.calls && s' == s.(client := None, calls := AfterTaking(s, t, false))
    case Subscribe =>
      s' == s.(channels := s.channels + 1, made := s.made + {s.channels}, notes := s.notes + [Sent(s.channels)])
    case Register(ch) => ch in s.made && s' == s.(made := s.made - {ch}, subs := s.subs + {ch})
    case Unsubscribe(ch) =>
      s' == if ch in s.subs then s.(subs := s.subs - {ch}, notes := s.notes + [Closed(ch)]) else s
  }

  // ----- Who owns a connection

  predicate Holds(s: Service, t: Caller, c: Conn) {
    t in s.calls && ((s.calls[t].Opened? && s.calls[t].conn == c) || (s.calls[t].Taken? && s.calls[t].prior == c))
  }

  ghost predicate InFlight(s: Service, c: Conn) {
    exists t :: Holds(s, t, c)
  }

  /** A connection is held by the service, by one call, or was released; never two of these. */
  ghost predicate OwnedOnce(s: Service, c: Conn) {
    && (c in s.releases || s.client == Some(c) || InFlight(s, c) ==> c < s.count)
    && !(c in s.releases && s.client == Some(c))
    && !(c in s.releases && InFlight(s, c))
    && !(s.client == Some(c) && InFlight(s, c))
    && (forall t, u | Holds(s, t, c) && Holds(s, u, c) :: t == u)
  }

  /** With a closer, no opened connection is lost. */
  ghost predicate Accounted(s: Service, c: Conn) {
    s.hasCloser && c < s.count ==> c in s.releases || s.client == Some(c) || InFlight(s, c)
  }

  ghost predicate ReleasedOnce(s: Service) {
    forall i, j | 0 <= i < j < |s.releases| :: s.releases[i] != s.releases[j]
  }

  ghost predicate Ownership(s: Service) {
    ReleasedOnce(s) && (forall c :: OwnedOnce(s, c)) && (forall c :: Accounted(s, c))
  }

  /** Steps that touch no connection leave every holder where it was. */
  lemma SameHolders(s: Service, s': Service)
    requires forall t, c :: Holds(s, t, c) <==> Holds(s', t, c)
    requires s'.client == s.client && s'.releases == s.releases && s'.count == s.count && s'.hasCloser == s.hasCloser
    requires Ownership(s)
    ensures Ownership(s')
  {
    forall c: Conn
      ensures OwnedOnce(s', c) && Accounted(s', c)
    {
      assert OwnedOnce(s, c) && Accounted(s, c);
      assert InFlight(s, c) <==> InFlight(s', c);
    }
  }

  lemma ConnectKeeps(s: Service, t: Caller, s': Service)
    requires Ownership(s) && Next(s, Connect(t), s')
    ensures Ownership(s')
  {
    forall c: Conn
      ensures OwnedOnce(s', c) && Accounted(s', c)
    {
      assert OwnedOnce(s, c) && Accounted(s, c);
      assert forall u | u != t :: Holds(s', u, c) <==> Holds(s, u, c);
      assert Holds(s', t, c) <==> c == s.count;
      assert !Holds(s, t, c);
    }
  }

  lemma InstallKeeps(s: Service, t: Caller, s': Service)
    requires Ownership(s) && Next(s, Install(t), s')
    ensures Ownership(s')
  {
    var mine := s.calls[t].conn;
    assert Holds(s, t, mine);
    forall c: Conn
      ensures OwnedOnce(s', c) && Accounted(s', c)
    {
      assert OwnedOnce(s, c) && Accounted(s, c) && OwnedOnce(s, mine);
      assert forall u | u != t :: Holds(s', u, c) <==> Holds(s, u, c);
      assert Holds(s', t, c) <==> s.hasCloser && s.client == Some(c);
      assert Holds(s, t, c) <==> c == mine;
    }
  }

  lemma ReleaseKeeps(s: Service, t: Caller, s': Service)
    requires Ownership(s) && Next(s, Release(t), s')
    ensures Ownership(s')
  {
    var gone := s.calls[t].prior;
    assert Holds(s, t, gone) && OwnedOnce(s, gone);
    forall c: Conn
      ensures OwnedOnce(s', c) && Accounted(s', c)
    {
      assert OwnedOnce(s, c) && Accounted(s, c);
      assert forall u | u != t :: Holds(s', u, c) <==> Holds(s, u, c);
      assert !Holds(s', t, c) && (Holds(s, t, c) <==> c == gone);
      assert c in s'.releases <==> c in s.releases || c == gone;
    }
  }

  lemma ShutdownKeeps(s: Service, t: Caller, s': Service)
    requires Ownership(s) && Next(s, Shutdown(t), s')
    ensures Ownership(s')
  {
    forall c: Conn
      ensures OwnedOnce(s', c) && Accounted(s', c)
    {
      assert OwnedOnce(s, c) && Accounted(s, c);
      assert forall u | u != t :: Holds(s', u, c) <==> Holds(s, u, c);
      assert !Holds(s, t, c);
      assert Holds(s', t, c) <==> s.hasCloser && s.client == Some(c);
    }
  }

  lemma StepKeepsOwnership(s: Service, step: Step, s': Service)
    requires Ownership(s) && Next(s, step, s')
    ensures Ownership(s')
  {
    match step {
      case Connect(t) => ConnectKeeps(s, t, s');
      case Install(t) => InstallKeeps(s, t, s');
      case Release(t) => ReleaseKeeps(s, t, s');
      case Shutdown(t) => ShutdownKeeps(s, t, s');
      case _ => SameHolders(s, s');
    }
  }

  // ----- Subscriber channels

  /** Nothing happens on a channel after it is closed. */
  ghost predicate Quiet(notes: seq<Note>) {
    forall i, j | 0 <= i < j < |notes| && notes[i].Closed? :: notes[j].chan != notes[i].chan
  }

  predicate IsClosed(notes: seq<Note>, ch: Chan) {
    Closed(ch) in notes
  }

  ghost predicate Channels(s: Service) {
    && Quiet(s.notes)
    && s.made !! s.subs
    && (forall ch | ch in s.made || ch in s.subs :: ch < s.channels && !IsClosed(s.notes, ch))
    && (forall i | 0 <= i < |s.notes| :: s.notes[i].chan < s.channels)
  }

  /** A channel gets a value when it is made, and is registered, about to be, or closed. */
  predicate Served(s: Service, ch: Chan) {
    ch < s.channels ==> Sent(ch) in s.notes && (ch in s.made || ch in s.subs || IsClosed(s.notes, ch))
  }

  lemma QuietMore(notes: seq<Note>, more: seq<Note>)
    requires Quiet(notes)
    requires forall i | 0 <= i < |more| :: more[i].Sent? && !IsClosed(notes, more[i].chan)
    ensures Quiet(notes + more)
    ensures forall ch :: IsClosed(notes + more, ch) <==> IsClosed(notes, ch)
  {
  }

  lemma CloseKeeps(s: Service, ch: Chan)
    requires Channels(s) && ch in s.subs
    ensures Channels(s.(subs := s.subs - {ch}, notes := s.notes + [Closed(ch)]))
  {
  }

  lemma AnnounceKeeps(s: Service, t: Caller, s': Service)
    requires Channels(s) && Next(s, Announce(t), s')
    ensures Channels(s')
  {
    var more :| Announces(s.subs, more) && s' == s.(notes := s.notes + more, calls := s.calls - {t});
    QuietMore(s.notes, more);
  }

  lemma SubscribeKeeps(s: Service, s': Service)
    requires Channels(s) && Next(s, Subscribe, s')
    ensures Channels(s')
  {
  }

  lemma StepKeepsChannels(s: Service, step: Step, s': Service)
    requires Channels(s) && Next(s, step, s')
    ensures Channels(s')
  {
    match step {
      case Announce(t) => AnnounceKeeps(s, t, s');
      case Subscribe => SubscribeKeeps(s, s');
      case Unsubscribe(ch) =>
        if ch in s.subs {
          CloseKeeps(s, ch);
        }
      case _ =>
    }
  }

  lemma StepKeepsServed(s: Service, step: Step, s': Service, ch: Chan)
    requires Next(s, step, s') && Served(s, ch)
    ensures Served(s', ch)
  {
    match step {
      case Announce(t) =>
        var more :| Announces(s.subs, more) && s' == s.(notes := s.notes + more, calls := s.calls - {t});
      case Subscribe => assert s'.notes[|s.notes|] == Sent(s.channels);
      case Unsubscribe(c) => assert c in s.subs ==> s'.notes[|s.notes|] == Closed(c);
      case _ =>
    }
  }

  /** The flag goes up when a call reports its connection, down when one fails or is dropped, and only then. */
  lemma FlagFollows(s: Service, step: Step, s': Service)
    requires Next(s, step, s')
    ensures step.Report? ==> s'.connected
    ensures step.ConnectFails? || step.Drop? ==> !s'.connected
    ensures !step.Report? && !step.ConnectFails? && !step.Drop? ==> s'.connected == s.connected
  {
  }

  // ----- Every interleaving

  ghost predicate IsRun(states: seq<Service>, steps: seq<Step>) {
    |states| == |steps| + 1 && forall k :: NextAt(states, steps, k)
  }

  ghost predicate NextAt(states: seq<Service>, steps: seq<Step>, k: nat) {
    k < |steps| && k + 1 < |states| ==> Next(states[k], steps[k], states[k + 1])
  }

  lemma {:induction false} RunsKeepInvariants(states: seq<Service>, steps: seq<Step>, n: nat)
    requires IsRun(states, steps) && n < |states| && states[0] == New(states[0].hasCloser)
    ensures Ownership(states[n]) && Channels(states[n]) && forall ch :: Served(states[n], ch)
    decreases n
  {
    if n == 0 {
      NewOwns(states[0]);
    } else {
      RunsKeepInvariants(states, steps, n - 1);
      assert NextAt(states, steps, n - 1);
      StepKeepsOwnership(states[n - 1], steps[n - 1], states[n]);
      StepKeepsChannels(states[n - 1], steps[n - 1], states[n]);
      forall ch
        ensures Served(states[n], ch)
      {
        StepKeepsServed(states[n - 1], steps[n - 1], states[n], ch);
      }
    }
  }

  lemma NewOwns(s: Service)
    requires s == New(s.hasCloser)
    ensures Ownership(s) && Channels(s)
  {
  }

  /**
   In every interleaving each connection is released at most once, and whenever no call is in flight, a
   service with a closer has released every opened connection except the one it holds. Every subscriber channel
   gets a value when it is made, is closed once it is dropped, and is not sent to or closed again after that.
   */
  lemma ConnectionsReleasedOnce(states: seq<Service>, steps: seq<Step>, n: nat)
    requires IsRun(states, steps) && n < |states| && states[0] == New(states[0].hasCloser)
    ensures ReleasedOnce(states[n]) && Quiet(states[n].notes)
    ensures forall ch :: Served(states[n], ch)
    ensures states[n].hasCloser && states[n].calls == map[] ==>
      forall c | 0 <= c < states[n].count :: c in states[n].releases <==> states[n].client != Some(c)
  {
    RunsKeepInvariants(states, steps, n);
    var s := states[n];
    if s.hasCloser && s.calls == map[] {
      forall c | 0 <= c < s.count
        ensures c in s.releases <==> s.client != Some(c)
      {
        assert OwnedOnce(s, c) && Accounted(s, c);
        assert !InFlight(s, c);
      }
    }
  }
}
